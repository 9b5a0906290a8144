/** The bookkeeping both ends keep about resend requests in flight. */
module Requests {
  import opened Common
  import opened Messages
  import opened Receiver
  import opened Sender

  /** The requests among the commands under way to the sender. */
  function Reports(up: seq<Command>): seq<Request>
  {
    if up == [] then []
    else (if up[0].Report? then [Request(up[0].s, up[0].len)] else []) + Reports(up[1..])
  }

  lemma {:induction false} ReportsOfConcat(a: seq<Command>, b: seq<Command>)
    ensures Reports(a + b) == Reports(a) + Reports(b)
  {
    if a == [] {
      assert a + b == b;
    } else {
      assert (a + b)[0] == a[0] && (a + b)[1..] == a[1..] + b;
      ReportsOfConcat(a[1..], b);
      Regroup(if a[0].Report? then [Request(a[0].s, a[0].len)] else [], Reports(a[1..]), Reports(b));
    }
  }

  /**
   * Pending requests `q`, oldest first. Every one starts at or after `b`, the sender's progress. A
   * progress report (length 0) lies at or before `x`. A gap report is the last one: it starts at `x`,
   * the first sequence neither received nor under way, and ends at `hi`. With no gap report, `x == hi`.
   */
  ghost predicate Chain(b: nat, q: seq<Request>, x: nat, hi: nat)
    decreases |q|
  {
    if q == [] then x == hi
    else
      var r := q[0];
      b <= r.s <= x && if r.len == 0 then Chain(r.s, q[1..], x, hi) else r.s == x && r.s + r.len == hi && |q| == 1
  }

  lemma {:induction false} ChainWeaker(b: nat, b': nat, q: seq<Request>, x: nat, hi: nat)
    requires Chain(b, q, x, hi) && b' <= b
    ensures Chain(b', q, x, hi)
  {
  }

  lemma {:induction false} ChainBounds(b: nat, q: seq<Request>, x: nat, hi: nat)
    requires Chain(b, q, x, hi)
    ensures x <= hi && (q != [] ==> b <= x)
    decreases |q|
  {
    if q != [] && q[0].len == 0 { ChainBounds(q[0].s, q[1..], x, hi); }
  }

  lemma {:induction false} ChainMember(b: nat, q: seq<Request>, x: nat, hi: nat, k: nat)
    requires Chain(b, q, x, hi) && k < |q|
    ensures b <= q[k].s && q[k].s + q[k].len <= hi
    decreases |q|
  {
    ChainBounds(b, q, x, hi);
    if k > 0 { ChainMember(q[0].s, q[1..], x, hi, k - 1); }
  }

  lemma {:induction false} ChainReport(b: nat, q: seq<Request>, x: nat, len: nat)
    requires Chain(b, q, x, x) && b <= x
    ensures Chain(b, q + [Request(x, len)], x, x + len)
    decreases |q|
  {
    if q == [] {
      assert (q + [Request(x, len)])[1..] == [];
    } else {
      assert (q + [Request(x, len)])[1..] == q[1..] + [Request(x, len)];
      ChainReport(q[0].s, q[1..], x, len);
    }
  }

  lemma {:induction false} ChainShift(b: nat, q: seq<Request>, x: nat)
    requires Chain(b, q, x, x)
    ensures Chain(b, q, x + 1, x + 1)
    decreases |q|
  {
    if q != [] { ChainShift(q[0].s, q[1..], x); }
  }

  /** A full queue forgets a progress report, never a gap report. */
  lemma {:induction false} ChainPush(b: nat, q: seq<Request>, r: Request, rest: seq<Request>, x: nat, hi: nat, cap: nat)
    requires Chain(b, q + [r] + rest, x, hi)
    ensures Chain(b, PushRequest(q, r, cap) + rest, x, hi)
  {
    if |q| >= cap && |q| > 0 {
      var all := q + [r] + rest;
      assert all[0] == q[0] && all[1..] == q[1..] + [r] + rest;
      ChainWeaker(q[0].s, b, all[1..], x, hi);
    }
  }

  /** Commands are read in order, so every report finds all subscriptions in place. */
  ghost predicate SubsOwed(have: set<Tag>, up: seq<Command>, subs: set<Tag>)
    decreases |up|
  {
    if up == [] then have == subs
    else match up[0]
      case Subscribe(t) => t in subs && SubsOwed(have + {t}, up[1..], subs)
      case AllSent => SubsOwed(have, up[1..], subs)
      case Report(_, _) => have == subs && SubsOwed(have, up[1..], subs)
  }

  lemma {:induction false} SubsOwedConcat(have: set<Tag>, a: seq<Command>, b: seq<Command>, subs: set<Tag>)
    requires SubsOwed(have, a, subs) && SubsOwed(subs, b, subs)
    ensures SubsOwed(have, a + b, subs)
    decreases |a|
  {
    if a == [] {
      assert a + b == b;
    } else {
      assert (a + b)[0] == a[0] && (a + b)[1..] == a[1..] + b;
      SubsOwedConcat(if a[0].Subscribe? then have + {a[0].tag} else have, a[1..], b, subs);
    }
  }

  /** Announcing every subscribed tag leaves exactly those tags at the other end. */
  lemma {:induction false} SubscriptionsOwed(have: set<Tag>, order: seq<Tag>, subs: set<Tag>)
    requires forall t :: t in order ==> t in subs
    requires forall t :: t in subs ==> t in have || t in order
    requires have <= subs
    ensures SubsOwed(have, Subscriptions(order), subs) && Reports(Subscriptions(order)) == []
    decreases |order|
  {
    var c := Subscriptions(order);
    if order == [] {
      assert c == [AllSent] && c[1..] == [];
      assert have == subs;
    } else {
      assert c[0] == Subscribe(order[0]) && c[1..] == Subscriptions(order[1..]);
      forall t | t in subs ensures t in have + {order[0]} || t in order[1..] {}
      SubscriptionsOwed(have + {order[0]}, order[1..], subs);
    }
  }
}
