/**
 * Subscription counts and zero-copy reference counts across processes: hmbdc/tips/TypeTagSet.hpp (lines 156-192),
 * hmbdc/tips/Domain.hpp (lines 690-707, 794-811, 846-902, 1160-1163), hmbdc/app/Context.hpp (lines 606-621, 757-766).
 * One shared block is followed; blocks do not influence one another.
 */
module ZeroCopy {
  import opened Common
  import opened Messages

  /**
   * `inbound[p]` are the tags party p has marked, `adding[p]` those it has not yet added to the shared 16-bit
   * counters `outbound`.
   */
  datatype Parties = Parties(inbound: seq<set<Tag>>, adding: seq<set<Tag>>, gone: set<nat>, outbound: seq<nat>)

  /**
   * The block: its count, whether the owner still holds it, which parties are counted but not served (`promised`),
   * which are served and have not let go (`owed`), and how often it was deallocated.
   */
  datatype Block = Block(count: int, local: bool, promised: multiset<nat>, owed: multiset<nat>, freed: nat)

  datatype System = System(ps: Parties, owner: nat, block: Block)

  datatype Step =
    | Mark(p: nat, tag: Tag)
    | Add(p: nat, tag: Tag)
    | Drop(p: nat)
    | Count(tag: Tag)
    | Deliver
    | Consume(p: nat)
    | LetGo

  const TAGS := 65536

  function Settled(ps: Parties, tag: Tag): (s: set<nat>)
    ensures forall p :: p in s ==> p < |ps.inbound|
  {
    set p: nat | p < |ps.inbound| && p < |ps.adding| && p !in ps.gone && tag in ps.inbound[p] && tag !in ps.adding[p]
  }

  /** `check` returns eight bits. */
  function Checked(ps: Parties, tag: Tag): nat
    requires |ps.outbound| == TAGS
  {
    ps.outbound[tag] % 256
  }

  /** What a send by `p` adds to the block's count. */
  function Diff(ps: Parties, p: nat, tag: Tag): int
    requires |ps.outbound| == TAGS && p < |ps.inbound|
  {
    Checked(ps, tag) - if tag in ps.inbound[p] then 1 else 0
  }

  function Remote(ps: Parties, p: nat, tag: Tag): set<nat> { Settled(ps, tag) - {p} }

  predicate Sized(m: System)
  {
    |m.ps.outbound| == TAGS && |m.ps.adding| == |m.ps.inbound| && m.owner < |m.ps.inbound|
  }

  predicate Enabled(m: System, st: Step)
  {
    && Sized(m)
    && match st
       case Mark(p, tag) => p < |m.ps.inbound| && p !in m.ps.gone && tag !in m.ps.inbound[p]
       case Add(p, tag) => p < |m.ps.inbound| && tag in m.ps.adding[p]
       case Drop(p) => p < |m.ps.inbound| && p !in m.ps.gone && m.ps.adding[p] == {}
       case Count(_) => m.block.local && m.block.promised == multiset{}
       case Deliver => true
       case Consume(p) => p in m.block.owed
       case LetGo => m.block.local && m.block.promised == multiset{}
  }

  function Release(b: Block): Block
  {
    b.(count := b.count - 1, freed := if b.count == 1 then b.freed + 1 else b.freed)
  }

  function Do(m: System, st: Step): System
    requires Enabled(m, st)
  {
    var ps, b := m.ps, m.block;
    match st
    case Mark(p, tag) =>
      m.(ps := ps.(inbound := ps.inbound[p := ps.inbound[p] + {tag}], adding := ps.adding[p := ps.adding[p] + {tag}]))
    case Add(p, tag) =>
      m.(ps := ps.(adding := ps.adding[p := ps.adding[p] - {tag}], outbound := ps.outbound[tag := (ps.outbound[tag] + 1) % 65536]))
    case Drop(p) =>
      m.(ps := ps.(gone := ps.gone + {p},
                   outbound := seq(TAGS, t requires 0 <= t < TAGS =>
                     if t in ps.inbound[p] then (ps.outbound[t] + 65535) % 65536 else ps.outbound[t])))
    case Count(tag) =>
      // Where the difference is zero nothing is sent.
      if Diff(ps, m.owner, tag) == 0 then m
      else m.(block := b.(count := b.count + Diff(ps, m.owner, tag), promised := multiset(Remote(ps, m.owner, tag))))
    case Deliver => m.(block := b.(promised := multiset{}, owed := b.owed + b.promised))
    case Consume(p) => m.(block := Release(b).(owed := b.owed - multiset{p}))
    case LetGo => m.(block := Release(b).(local := false))
  }

  // ---- the counters ---------------------------------------------------------------------------

  /** Each counter is the number of parties that subscribe and have been added, as far as sixteen bits tell. */
  ghost predicate Counted(m: System)
  {
    && Sized(m)
    && (forall p, t :: 0 <= p < |m.ps.inbound| && t in m.ps.adding[p] ==> t in m.ps.inbound[p] && p !in m.ps.gone)
    && forall t: Tag :: m.ps.outbound[t] == |Settled(m.ps, t)| % 65536
  }

  lemma UpOne(a: nat)
    ensures (a % 65536 + 1) % 65536 == (a + 1) % 65536
  {
  }

  lemma DownOne(a: nat)
    requires a > 0
    ensures (a % 65536 + 65535) % 65536 == (a - 1) % 65536
  {
  }

  lemma AddCounted(m: System, p: nat, tag: Tag)
    requires Counted(m) && Enabled(m, Add(p, tag))
    ensures Counted(Do(m, Add(p, tag)))
  {
    var m' := Do(m, Add(p, tag));
    forall t: Tag ensures m'.ps.outbound[t] == |Settled(m'.ps, t)| % 65536 {
      if t == tag {
        assert Settled(m'.ps, t) == Settled(m.ps, t) + {p};
        UpOne(|Settled(m.ps, t)|);
      } else {
        assert Settled(m'.ps, t) == Settled(m.ps, t);
      }
    }
  }

  lemma DropCounted(m: System, p: nat)
    requires Counted(m) && Enabled(m, Drop(p))
    ensures Counted(Do(m, Drop(p)))
  {
    var m' := Do(m, Drop(p));
    forall t: Tag ensures m'.ps.outbound[t] == |Settled(m'.ps, t)| % 65536 {
      if t in m.ps.inbound[p] {
        assert Settled(m'.ps, t) == Settled(m.ps, t) - {p} && p in Settled(m.ps, t);
        DownOne(|Settled(m.ps, t)|);
      } else {
        assert Settled(m'.ps, t) == Settled(m.ps, t);
      }
    }
  }

  lemma StepCounted(m: System, st: Step)
    requires Counted(m) && Enabled(m, st)
    ensures Counted(Do(m, st))
  {
    match st
    case Add(p, tag) => AddCounted(m, p, tag);
    case Drop(p) => DropCounted(m, p);
    case Mark(p, tag) =>
      forall t: Tag ensures Settled(Do(m, st).ps, t) == Settled(m.ps, t) {}
    case _ =>
  }

  /** The number a sender adds is the number of other subscribers exactly while there are fewer than 256 of them all. */
  lemma CountIsRight(m: System, p: nat, tag: Tag)
    requires Counted(m) && p < |m.ps.inbound| && p !in m.ps.gone && tag !in m.ps.adding[p]
    ensures Diff(m.ps, p, tag) == |Remote(m.ps, p, tag)| <==> |Settled(m.ps, tag)| < 256
  {
    var s := Settled(m.ps, tag);
    assert (|s| % 65536) % 256 == |s| % 256;
    if tag in m.ps.inbound[p] { assert p in s && |s - {p}| == |s| - 1; } else { assert s - {p} == s; }
  }

  // ---- the block ------------------------------------------------------------------------------

  /** The count is the owner's hold and one for every party that has yet to let go; at zero the block is freed, once. */
  ghost predicate Held(m: System)
  {
    && m.block.count == (if m.block.local then 1 else 0) + |m.block.promised| + |m.block.owed|
    && m.block.freed == (if m.block.count == 0 then 1 else 0)
  }

  /** A send counts with fewer than 256 subscribers, while the owner's own subscription is settled. */
  predicate Careful(m: System, st: Step)
  {
    st.Count? ==> Sized(m) && m.owner !in m.ps.gone && st.tag !in m.ps.adding[m.owner] && |Settled(m.ps, st.tag)| < 256
  }

  lemma StepHeld(m: System, st: Step)
    requires Counted(m) && Held(m) && Enabled(m, st) && Careful(m, st)
    ensures Held(Do(m, st))
  {
    match st
    case Count(tag) => CountIsRight(m, m.owner, tag);
    case Deliver => assert |m.block.owed + m.block.promised| == |m.block.owed| + |m.block.promised|;
    case Consume(p) => assert |m.block.owed - multiset{p}| == |m.block.owed| - 1;
    case _ =>
  }

  ghost predicate Initial(m: System)
  {
    && Sized(m) && m.ps.gone == {} && (forall t :: 0 <= t < TAGS ==> m.ps.outbound[t] == 0)
    && (forall p :: 0 <= p < |m.ps.inbound| ==> m.ps.inbound[p] == {} && m.ps.adding[p] == {})
    && m.block == Block(1, true, multiset{}, multiset{}, 0)
  }

  ghost predicate Run(ms: seq<System>, sts: seq<Step>)
  {
    && |ms| == |sts| + 1 && Initial(ms[0])
    && forall i :: 0 <= i < |sts| ==> Enabled(ms[i], sts[i]) && ms[i + 1] == Do(ms[i], sts[i])
  }

  lemma {:induction false} Reachable(ms: seq<System>, sts: seq<Step>, i: nat)
    requires Run(ms, sts) && i < |ms|
    ensures Counted(ms[i])
  {
    if i == 0 {
      forall t: Tag ensures |Settled(ms[0].ps, t)| == 0 { assert Settled(ms[0].ps, t) == {}; }
    } else {
      Reachable(ms, sts, i - 1);
      assert ms[i - 1 + 1] == Do(ms[i - 1], sts[i - 1]);
      StepCounted(ms[i - 1], sts[i - 1]);
    }
  }

  lemma {:induction false} ReachableHeld(ms: seq<System>, sts: seq<Step>, i: nat)
    requires Run(ms, sts) && i < |ms| && forall k :: 0 <= k < |sts| ==> Careful(ms[k], sts[k])
    ensures Held(ms[i])
  {
    if i > 0 {
      Reachable(ms, sts, i - 1);
      ReachableHeld(ms, sts, i - 1);
      assert ms[i - 1 + 1] == Do(ms[i - 1], sts[i - 1]);
      StepHeld(ms[i - 1], sts[i - 1]);
    }
  }

  /** Never deallocated while anyone holds it or is about to, and exactly once after. */
  lemma FreedExactlyOnce(ms: seq<System>, sts: seq<Step>, i: nat)
    requires Run(ms, sts) && i < |ms| && forall k :: 0 <= k < |sts| ==> Careful(ms[k], sts[k])
    ensures var b := ms[i].block;
            b.freed == if b.local || b.promised != multiset{} || b.owed != multiset{} then 0 else 1
  {
    ReachableHeld(ms, sts, i);
    var b := ms[i].block;
    assert b.promised != multiset{} ==> |b.promised| > 0;
    assert b.owed != multiset{} ==> |b.owed| > 0;
  }

  /** With nobody half way through subscribing, a tag's counter is its number of subscribers. */
  lemma CounterIsSubscribers(ms: seq<System>, sts: seq<Step>, i: nat, tag: Tag)
    requires Run(ms, sts) && i < |ms| && forall p :: 0 <= p < |ms[i].ps.adding| ==> ms[i].ps.adding[p] == {}
    ensures var subs := set p: nat | p < |ms[i].ps.inbound| && p !in ms[i].ps.gone && tag in ms[i].ps.inbound[p];
            |ms[i].ps.outbound| == TAGS && (Checked(ms[i].ps, tag) == |subs| <==> |subs| < 256)
  {
    Reachable(ms, sts, i);
    var subs := set p: nat | p < |ms[i].ps.inbound| && p !in ms[i].ps.gone && tag in ms[i].ps.inbound[p];
    assert subs == Settled(ms[i].ps, tag);
    assert (|subs| % 65536) % 256 == |subs| % 256;
  }

  /** A party that leaves is no longer counted for any tag. */
  lemma LeaverIsUncounted(ms: seq<System>, sts: seq<Step>, i: nat, tag: Tag)
    requires Run(ms, sts) && i < |sts| && sts[i].Drop?
    ensures |ms[i + 1].ps.outbound| == TAGS && Settled(ms[i + 1].ps, tag) == Settled(ms[i].ps, tag) - {sts[i].p}
    ensures ms[i + 1].ps.outbound[tag] == |Settled(ms[i].ps, tag) - {sts[i].p}| % 65536 && ms[i + 1].block == ms[i].block
  {
    Reachable(ms, sts, i + 1);
    assert ms[i + 1] == Do(ms[i], sts[i]);
    assert Settled(ms[i + 1].ps, tag) == Settled(ms[i].ps, tag) - {sts[i].p};
  }

  // ---- 256 subscribers and more ---------------------------------------------------------------

  /** Every send of the run finds `n` subscribers, and the owner's own subscription settled. */
  ghost predicate SendsTo(n: nat, ms: seq<System>, sts: seq<Step>)
    requires Run(ms, sts)
  {
    forall i :: 0 <= i < |sts| && sts[i].Count? ==> SendTo(n, ms[i], sts[i])
  }

  predicate SendTo(n: nat, m: System, st: Step)
  {
    st.Count? ==> Sized(m) && m.owner !in m.ps.gone && st.tag !in m.ps.adding[m.owner] && |Settled(m.ps, st.tag)| == n
  }

  /** Some such run gets to `m`. */
  ghost predicate Gets(n: nat, m: System)
  {
    exists ms: seq<System>, sts: seq<Step> :: Run(ms, sts) && SendsTo(n, ms, sts) && ms[|sts|] == m
  }

  lemma GetsOn(n: nat, m: System, st: Step)
    requires Gets(n, m) && Enabled(m, st) && SendTo(n, m, st)
    ensures Gets(n, Do(m, st))
  {
    var ms: seq<System>, sts: seq<Step> :| Run(ms, sts) && SendsTo(n, ms, sts) && ms[|sts|] == m;
    var ns, ss := ms + [Do(m, st)], sts + [st];
    forall i | 0 <= i < |ss| ensures Enabled(ns[i], ss[i]) && ns[i + 1] == Do(ns[i], ss[i]) && SendTo(n, ns[i], ss[i]) {
      if i < |sts| { assert Enabled(ms[i], sts[i]) && ms[i + 1] == Do(ms[i], sts[i]) && SendTo(n, ms[i], sts[i]); }
    }
    assert Run(ns, ss) && ns[|ss|] == Do(m, st);
  }

  lemma GetsIsCounted(n: nat, m: System)
    requires Gets(n, m)
    ensures Counted(m)
  {
    var ms: seq<System>, sts: seq<Step> :| Run(ms, sts) && SendsTo(n, ms, sts) && ms[|sts|] == m;
    Reachable(ms, sts, |sts|);
  }

  /** Of `n` parties besides the owner, which is party 0, the first `k` subscribe to tag 0, and the owner if `own`. */
  ghost predicate Subscribed(m: System, n: nat, k: nat, own: bool)
  {
    && Sized(m) && |m.ps.inbound| == n + 1 && m.owner == 0 && m.ps.gone == {}
    && (forall p :: 0 <= p < n + 1 ==>
          m.ps.inbound[p] == (if 1 <= p <= k || (p == 0 && own) then {0} else {}) && m.ps.adding[p] == {})
    && m.block == Block(1, true, multiset{}, multiset{}, 0)
  }

  lemma SubscribesOne(total: nat, m: System, p: nat) returns (m': System)
    requires Gets(total, m) && Sized(m) && p < |m.ps.inbound| && p !in m.ps.gone && 0 !in m.ps.inbound[p] && 0 !in m.ps.adding[p]
    ensures Gets(total, m') && Sized(m') && m'.owner == m.owner && m'.block == m.block && m'.ps.gone == m.ps.gone
    ensures m'.ps.inbound == m.ps.inbound[p := m.ps.inbound[p] + {0}] && m'.ps.adding == m.ps.adding
  {
    GetsOn(total, m, Mark(p, 0));
    var m1 := Do(m, Mark(p, 0));
    assert 0 in m1.ps.adding[p] && m.ps.adding[p] + {0} - {0} == m.ps.adding[p];
    GetsOn(total, m1, Add(p, 0));
    m' := Do(m1, Add(p, 0));
    assert m'.ps.adding == m.ps.adding;
  }

  lemma {:induction false} Subscribe(total: nat, n: nat, k: nat, own: bool) returns (m: System)
    requires k <= n
    ensures Gets(total, m) && Subscribed(m, n, k, own)
  {
    if k > 0 {
      m := Subscribe(total, n, k - 1, own);
      m := SubscribesOne(total, m, k);
    } else {
      var none: seq<set<Tag>> := seq(n + 1, _ => {});
      m := System(Parties(none, none, {}, seq(TAGS, _ => 0)), 0, Block(1, true, multiset{}, multiset{}, 0));
      var ms, sts: seq<Step> := [m], [];
      assert Run(ms, sts) && SendsTo(total, ms, sts) && ms[|sts|] == m;
      if own { m := SubscribesOne(total, m, 0); }
    }
  }

  lemma SettledAll(m: System, n: nat, own: bool)
    requires Subscribed(m, n, n, own)
    ensures Remote(m.ps, 0, 0) == Range(1, n + 1) && |Settled(m.ps, 0)| == n + if own then 1 else 0
  {
    var others := Range(1, n + 1);
    forall p: nat ensures p in Settled(m.ps, 0) <==> p in others || (own && p == 0) { IsSettled(m, n, own, p); }
    if own { assert Settled(m.ps, 0) == others + {0}; } else { assert Settled(m.ps, 0) == others; }
  }

  lemma IsSettled(m: System, n: nat, own: bool, p: nat)
    requires Subscribed(m, n, n, own)
    ensures p in Settled(m.ps, 0) <==> 1 <= p < n + 1 || (own && p == 0)
  {
  }

  lemma DiffOfAll(m: System, total: nat)
    requires Sized(m) && m.ps.outbound[0] == total % 65536
    ensures Diff(m.ps, 0, 0) == total % 256 - if 0 in m.ps.inbound[0] then 1 else 0
  {
    EightBits(total);
  }

  lemma EightBits(n: nat)
    ensures (n % 65536) % 256 == n % 256
  {
  }

  /** The sender counts modulo 256, and serves everybody unless that leaves nothing to add. */
  lemma Serves(n: nat, own: bool) returns (m: System)
    requires var total := n + if own then 1 else 0; total % 256 != if own then 1 else 0
    ensures var total := n + if own then 1 else 0;
            && Gets(total, m) && Sized(m)
            && m.block == Block(1 + total % 256 - (if own then 1 else 0), true, multiset{}, multiset(Range(1, n + 1)), 0)
  {
    var total := n + if own then 1 else 0;
    var m0 := Subscribe(total, n, n, own);
    GetsIsCounted(total, m0);
    SettledAll(m0, n, own);
    DiffOfAll(m0, total);
    m := Sends(total, m0, Diff(m0.ps, 0, 0), Range(1, n + 1));
  }

  lemma Sends(total: nat, m: System, diff: int, to: set<nat>) returns (m': System)
    requires Gets(total, m) && Sized(m) && m.block == Block(1, true, multiset{}, multiset{}, 0) && SendTo(total, m, Count(0))
    requires diff != 0 && Diff(m.ps, m.owner, 0) == diff && Remote(m.ps, m.owner, 0) == to
    ensures Gets(total, m') && Sized(m') && m'.block == Block(1 + diff, true, multiset{}, multiset(to), 0)
  {
    GetsOn(total, m, Count(0));
    var m1 := Do(m, Count(0));
    GetsOn(total, m1, Deliver);
    m' := Do(m1, Deliver);
    assert multiset{} + multiset(to) == multiset(to);
  }

  lemma OneLess(n: nat, k: nat)
    requires 1 <= k <= n
    ensures var left := multiset(Range(1, n + 1)) - multiset(Range(1, k));
            k in left && left - multiset{k} == multiset(Range(1, n + 1)) - multiset(Range(1, k + 1))
  {
    assert Range(1, k + 1) == Range(1, k) + {k} && k in Range(1, n + 1) && k !in Range(1, k);
  }

  lemma ConsumesOne(total: nat, m: System, p: nat) returns (m': System)
    requires Gets(total, m) && Sized(m) && p in m.block.owed && m.block.count != 1
    ensures Gets(total, m') && Sized(m')
    ensures m'.block == m.block.(count := m.block.count - 1, owed := m.block.owed - multiset{p})
  {
    GetsOn(total, m, Consume(p));
    m' := Do(m, Consume(p));
  }

  /** The first `k` subscribers let go. */
  lemma {:induction false} Consumes(total: nat, m: System, n: nat, k: nat) returns (m': System)
    requires Gets(total, m) && Sized(m) && k <= n && m.block.owed == multiset(Range(1, n + 1))
    requires m.block.count > k || m.block.count <= 0
    ensures Gets(total, m') && Sized(m')
    ensures m'.block == m.block.(count := m.block.count - k, owed := multiset(Range(1, n + 1)) - multiset(Range(1, k + 1)))
    decreases k
  {
    if k == 0 {
      m' := m;
    } else {
      m' := Consumes(total, m, n, k - 1);
      OneLess(n, k);
      m' := ConsumesOne(total, m', k);
    }
  }

  lemma LetsGo(total: nat, m: System) returns (m': System)
    requires Gets(total, m) && Sized(m) && m.block.local && m.block.promised == multiset{}
    ensures Gets(total, m') && Sized(m') && m'.block == Release(m.block).(local := false)
  {
    GetsOn(total, m, LetGo);
    m' := Do(m, LetGo);
  }

  predicate FreedRight(b: Block)
  {
    b.freed == if b.local || b.promised != multiset{} || b.owed != multiset{} then 0 else 1
  }

  /** With more than 256 subscribers, and not a multiple, a block can be deallocated while subscribers hold it. */
  lemma FreedWhileHeld(n: nat) returns (m: System)
    requires n >= 256 && n % 256 != 0
    ensures Gets(n, m) && m.block.freed == 1 && m.block.owed != multiset{}
  {
    m := Serves(n, false);
    m := ConsumesLast(n, m, n % 256);
  }

  /** The first `k` subscribers let go, then the owner, and the count is down to nothing. */
  lemma ConsumesLast(n: nat, m: System, k: nat) returns (m': System)
    requires Gets(n, m) && Sized(m) && k < n && m.block == Block(1 + k, true, multiset{}, multiset(Range(1, n + 1)), 0)
    ensures Gets(n, m') && m'.block.freed == 1 && m'.block.owed != multiset{}
  {
    m' := Consumes(n, m, n, k);
    m' := LetsGo(n, m');
    SomeLeft(n, k);
  }

  lemma SomeLeft(n: nat, k: nat)
    requires k < n
    ensures multiset(Range(1, n + 1)) - multiset(Range(1, k + 1)) != multiset{}
  {
    assert n in multiset(Range(1, n + 1)) - multiset(Range(1, k + 1));
  }

  /** With a multiple of 256, the owner among them, it is never deallocated, though nobody holds it in the end. */
  lemma NeverFreed(n: nat) returns (m: System)
    requires n >= 256 && n % 256 == 0
    ensures Gets(n, m) && m.block.freed == 0 && !m.block.local && m.block.promised == m.block.owed == multiset{}
  {
    m := Serves(n - 1, true);
    m := LetsGo(n, m);
    m := Consumes(n, m, n - 1, n - 1);
  }

  /** Blocks are deallocated once and never too early, in all runs that send to `n` subscribers, if and only if n < 256. */
  lemma FreedRightIffUnder256(n: nat)
    ensures (forall m :: Gets(n, m) ==> FreedRight(m.block)) <==> n < 256
  {
    if n < 256 {
      forall m | Gets(n, m) ensures FreedRight(m.block) {
        var ms: seq<System>, sts: seq<Step> :| Run(ms, sts) && SendsTo(n, ms, sts) && ms[|sts|] == m;
        forall k | 0 <= k < |sts| ensures Careful(ms[k], sts[k]) { assert SendTo(n, ms[k], sts[k]); }
        FreedExactlyOnce(ms, sts, |sts|);
      }
    } else {
      var m;
      if n % 256 == 0 { m := NeverFreed(n); } else { m := FreedWhileHeld(n); }
      assert !FreedRight(m.block);
    }
  }
}
