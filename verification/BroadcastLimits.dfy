/** When the broadcast ring's minimum cursor can be trusted, and a run in which it cannot. */
module BroadcastLimits {
  import opened Common
  import opened BroadcastRing
  import opened BroadcastProofs
  import opened BroadcastScans

  // ---- one consumer: nothing is ever re-read --------------------------------------------------

  ghost predicate NothingSeen(r: Ring)
  {
    |r.consumers| == 1 && forall p :: 0 <= p < |r.producers| && r.producers[p].Scan? ==>
      r.producers[p].seen == None && r.producers[p].held == None && r.producers[p].i >= 1
  }

  lemma {:induction false} SingleConsumerSeesNothing(anchor: nat, rs: seq<Ring>, sts: seq<Step>, i: nat)
    requires Run(anchor, rs, sts) && |rs[0].consumers| == 1 && i < |rs|
    ensures NothingSeen(rs[i])
  {
    if i > 0 {
      SingleConsumerSeesNothing(anchor, rs, sts, i - 1);
      assert Next(anchor, rs[i - 1], sts[i - 1], rs[i]);
    }
  }

  lemma SingleConsumerIsSafe(anchor: nat, rs: seq<Ring>, sts: seq<Step>, i: nat)
    requires Run(anchor, rs, sts) && |rs[0].consumers| == 1 && i < |rs|
    ensures Exclusive(rs[i])
  {
    forall k | 0 <= k < |sts| ensures Steady(rs[k], sts[k]) {
      SingleConsumerSeesNothing(anchor, rs, sts, k);
      assert Next(anchor, rs[k], sts[k], rs[k + 1]);
    }
    SteadyRunsAreSafe(anchor, rs, sts, i);
  }

  // ---- two or more: a run that overwrites an unread slot --------------------------------------

  const FRESH: Consumer := Consumer(Live(0), 0, 0, 0, [])

  function Ring2(cap: nat, n: nat, slots: seq<Slot>, log: seq<int>, done: set<nat>, p0: Producer, p1: Producer, c0: Consumer): Ring
    requires n >= 1
  {
    Ring(cap, slots, log, done, [p0, p1], [c0] + seq(n - 1, _ => FRESH))
  }

  /** A run over a ring of `cap` slots and `n` consumers that ends in `r`. */
  ghost predicate RunTo(rs: seq<Ring>, sts: seq<Step>, cap: nat, n: nat, r: Ring)
  {
    Run(0, rs, sts) && |rs[0].consumers| == n && rs[0].cap == cap && rs[|rs| - 1] == r
  }

  ghost predicate Gets(cap: nat, n: nat, r: Ring) { exists rs: seq<Ring>, sts: seq<Step> :: RunTo(rs, sts, cap, n, r) }

  lemma Extend(rs: seq<Ring>, sts: seq<Step>, cap: nat, n: nat, r: Ring, st: Step, r': Ring)
    requires RunTo(rs, sts, cap, n, r) && Next(0, r, st, r')
    ensures RunTo(rs + [r'], sts + [st], cap, n, r')
  {
    var rs', sts' := rs + [r'], sts + [st];
    forall i | 0 <= i < |sts'| ensures Next(0, rs'[i], sts'[i], rs'[i + 1]) {
      if i < |sts| { assert Next(0, rs[i], sts[i], rs[i + 1]); }
    }
  }

  lemma Takes(cap: nat, n: nat, r: Ring, st: Step, r': Ring)
    requires Gets(cap, n, r) && Next(0, r, st, r')
    ensures Gets(cap, n, r')
  {
    var rs: seq<Ring>, sts: seq<Step> :| RunTo(rs, sts, cap, n, r);
    Extend(rs, sts, cap, n, r, st, r');
  }

  /** `Ring2` with all cursors at 0, and `x` as producer `p`. */
  function Two(cap: nat, n: nat, slots: seq<Slot>, log: seq<int>, done: set<nat>, p: nat, x: Producer, other: Producer): Ring
    requires n >= 1
  {
    if p == 0 then Ring2(cap, n, slots, log, done, x, other, FRESH) else Ring2(cap, n, slots, log, done, other, x, FRESH)
  }

  /** Where the scan is before it looks at cursor `i`, all cursors being 0. */
  function AtZeros(items: seq<int>, s: nat, i: nat): Producer
  {
    Scan(items, s, true, i, 0, if i == 1 then None else Some(Live(0)), None)
  }

  lemma AllZero(r: Ring, n: nat, i: nat)
    requires 1 <= n && i < n && r.consumers == [FRESH] + seq(n - 1, _ => FRESH)
    ensures |r.consumers| == n && r.consumers[i] == r.consumers[0] == FRESH
  {
  }

  lemma LoadsZero(cap: nat, n: nat, slots: seq<Slot>, log: seq<int>, done: set<nat>, p: nat, other: Producer, items: seq<int>, s: nat, i: nat)
    requires 1 <= i < n && p < 2 && |slots| > 0 && Gets(cap, n, Two(cap, n, slots, log, done, p, AtZeros(items, s, i), other))
    ensures Gets(cap, n, Two(cap, n, slots, log, done, p, AtZeros(items, s, i).(held := Some(Live(0))), other))
  {
    var q := AtZeros(items, s, i).(held := Some(Live(0)));
    var r := Two(cap, n, slots, log, done, p, AtZeros(items, s, i), other);
    AllZero(r, n, i);
    Takes(cap, n, r, LoadCandidate(p), Two(cap, n, slots, log, done, p, q, other));
  }

  /** It loads the next cursor and compares it. */
  lemma ScanOneZero(cap: nat, n: nat, slots: seq<Slot>, log: seq<int>, done: set<nat>, p: nat, other: Producer, items: seq<int>, s: nat, i: nat)
    requires 1 <= i < n && p < 2 && |slots| > 0 && Gets(cap, n, Two(cap, n, slots, log, done, p, AtZeros(items, s, i), other))
    ensures Gets(cap, n, Two(cap, n, slots, log, done, p, AtZeros(items, s, i + 1), other))
  {
    LoadsZero(cap, n, slots, log, done, p, other, items, s, i);
    var r := Two(cap, n, slots, log, done, p, AtZeros(items, s, i).(held := Some(Live(0))), other);
    AllZero(r, n, i);
    Takes(cap, n, r, Compare(p), Two(cap, n, slots, log, done, p, AtZeros(items, s, i + 1), other));
  }

  /** Producer `p` compares all cursors while they are all 0: the first one stays the smallest. */
  lemma {:induction false} ScanZeros(cap: nat, n: nat, slots: seq<Slot>, log: seq<int>, done: set<nat>, p: nat, other: Producer,
                                     items: seq<int>, s: nat, i: nat)
    requires 1 <= i <= n && p < 2 && |slots| > 0 && Gets(cap, n, Two(cap, n, slots, log, done, p, AtZeros(items, s, i), other))
    ensures Gets(cap, n, Two(cap, n, slots, log, done, p, AtZeros(items, s, n), other))
    decreases n - i
  {
    if i < n {
      ScanOneZero(cap, n, slots, log, done, p, other, items, s, i);
      ScanZeros(cap, n, slots, log, done, p, other, items, s, i + 1);
    }
  }

  /** Producer `p` claims what comes next and looks at all cursors. */
  lemma ClaimsAndScans(cap: nat, n: nat, slots: seq<Slot>, log: seq<int>, done: set<nat>, p: nat, other: Producer, items: seq<int>)
    requires n >= 2 && p < 2 && |slots| > 0 && 1 <= |items| <= cap && Gets(cap, n, Two(cap, n, slots, log, done, p, Idle, other))
    ensures Gets(cap, n, Two(cap, n, slots, log + items, done, p, AtZeros(items, |log|, n), other))
  {
    var r := Two(cap, n, slots, log, done, p, Idle, other);
    Takes(cap, n, r, Claim(p, items), Two(cap, n, slots, log + items, done, p, NewScan(items, |log|, true), other));
    ScanZeros(cap, n, slots, log + items, done, p, other, items, |log|, 1);
  }

  /** Producer 0 claims sequence 0 and is let in. */
  lemma ClaimOne(cap: nat, n: nat, slots: seq<Slot>, v: int)
    requires cap > 0 && n >= 2 && |slots| == cap && forall i :: 0 <= i < cap ==> slots[i].tag == None
    ensures Gets(cap, n, Two(cap, n, slots, [v], {}, 0, Writing([v], 0, 0, false), Idle))
  {
    var r := Two(cap, n, slots, [], {}, 0, Idle, Idle);
    assert RunTo([r], [], cap, n, r);
    assert [] + [v] == [v];
    ClaimsAndScans(cap, n, slots, [], {}, 0, Idle, [v]);
    Takes(cap, n, Two(cap, n, slots, [v], {}, 0, AtZeros([v], 0, n), Idle), Decide(0),
          Two(cap, n, slots, [v], {}, 0, Writing([v], 0, 0, false), Idle));
  }

  lemma WriteOne(cap: nat, n: nat, slots: seq<Slot>, v: int)
    requires cap > 0 && n >= 2 && |slots| == cap && Gets(cap, n, Two(cap, n, slots, [v], {}, 0, Writing([v], 0, 0, false), Idle))
    ensures Gets(cap, n, Two(cap, n, Poke(slots, 0, Whole(v)), [v], {}, 0, Committing([v], 0, 0), Idle))
  {
    SmallSlot(0, cap);
    var torn, whole := Poke(slots, 0, Torn), Poke(slots, 0, Whole(v));
    assert Poke(torn, 0, Whole(v)) == whole;
    var r := Two(cap, n, slots, [v], {}, 0, Writing([v], 0, 0, false), Idle);
    var r1, r2 := Two(cap, n, torn, [v], {}, 0, Writing([v], 0, 0, true), Idle), Two(cap, n, whole, [v], {}, 0, Writing([v], 0, 1, false), Idle);
    Takes(cap, n, r, BeginWrite(0), r1);
    Takes(cap, n, r1, EndWrite(0), r2);
    Takes(cap, n, r2, StartCommit(0), Two(cap, n, whole, [v], {}, 0, Committing([v], 0, 0), Idle));
  }

  /** It puts one item; everybody's cursor stays at 0. */
  lemma PutOne(cap: nat, n: nat, slots: seq<Slot>, v: int)
    requires cap > 0 && n >= 2 && |slots| == cap && forall i :: 0 <= i < cap ==> slots[i].tag == None
    ensures Gets(cap, n, Two(cap, n, slots[0 := Slot(Some(0), Whole(v))], [v], {0}, 1, Idle, Committing([v], 0, 1)))
  {
    ClaimOne(cap, n, slots, v);
    WriteOne(cap, n, slots, v);
    SmallSlot(0, cap);
    var written, slots' := Poke(slots, 0, Whole(v)), slots[0 := Slot(Some(0), Whole(v))];
    assert written[0 := written[0].(tag := Some(0))] == slots';
    assert {} + {0} == {0};
    Takes(cap, n, Two(cap, n, written, [v], {}, 0, Committing([v], 0, 0), Idle), CommitOne(0),
          Two(cap, n, slots', [v], {0}, 1, Idle, Committing([v], 0, 1)));
  }

  /** The first consumer alone reads it and moves on. */
  lemma FirstMovesOn(cap: nat, n: nat, slots: seq<Slot>, log: seq<int>, v: int, q: Producer)
    requires cap > 0 && n >= 2 && |slots| == cap && slots[0] == Slot(Some(0), Whole(v))
    requires Gets(cap, n, Ring2(cap, n, slots, log, {0}, Committing([v], 0, 1), q, FRESH))
    ensures Gets(cap, n, Ring2(cap, n, slots, log, {0}, Committing([v], 0, 1), q, Consumer(Live(1), 1, 1, 0, [v])))
  {
    SmallSlot(0, cap);
    assert [] + [v] == [v];
    var p := Committing([v], 0, 1);
    var r1 := Ring2(cap, n, slots, log, {0}, p, q, Consumer(Live(0), 1, 0, 0, []));
    var r2 := Ring2(cap, n, slots, log, {0}, p, q, Consumer(Live(0), 1, 1, 0, [v]));
    Takes(cap, n, Ring2(cap, n, slots, log, {0}, p, q, FRESH), PeekOne(0), r1);
    Takes(cap, n, r1, Read(0), r2);
    Takes(cap, n, r2, Waste(0, 1), Ring2(cap, n, slots, log, {0}, p, q, Consumer(Live(1), 1, 1, 0, [v])));
  }

  /** `v` was put and wasted by the first consumer only; the second producer has claimed a whole ring behind it, and waits or is in. */
  predicate Overruns(r: Ring, v: int, items: seq<int>, inside: bool)
  {
    && r.log == [v] + items && |r.producers| == 2 && r.producers[0] == Committing([v], 0, 1)
    && r.producers[1] == (if inside then Writing(items, 1, 0, false) else AtZeros(items, 1, |r.consumers|))
    && |r.consumers| >= 2 && r.consumers[0] == Consumer(Live(1), 1, 1, 0, [v]) && r.consumers[1] == FRESH
  }

  /**
   * With two consumers or more a producer can be let into a slot some consumer has not read. It finds all
   * cursors equal, settles on the first, that consumer alone moves on, and the final read takes the new value.
   */
  lemma UnsafeRun(cap: nat, n: nat, v: int, items: seq<int>) returns (rs: seq<Ring>, sts: seq<Step>)
    requires cap > 0 && n >= 2 && |items| == cap
    ensures Run(0, rs, sts) && |rs[0].consumers| == n && rs[0].cap == cap
    ensures !Exclusive(rs[|rs| - 1])
    ensures sts != [] && sts[|sts| - 1] == Decide(1) && Overruns(rs[|rs| - 2], v, items, false) && Overruns(rs[|rs| - 1], v, items, true)
  {
    var blank := seq(cap, _ => Slot(None, Torn));
    var slots, first := blank[0 := Slot(Some(0), Whole(v))], Committing([v], 0, 1);
    PutOne(cap, n, blank, v);
    ClaimsAndScans(cap, n, slots, [v], {0}, 1, first, items);
    FirstMovesOn(cap, n, slots, [v] + items, v, AtZeros(items, 1, n));
    var moved := Consumer(Live(1), 1, 1, 0, [v]);
    var r := Ring2(cap, n, slots, [v] + items, {0}, first, AtZeros(items, 1, n), moved);
    var r' := Ring2(cap, n, slots, [v] + items, {0}, first, Writing(items, 1, 0, false), moved);
    rs, sts :| RunTo(rs, sts, cap, n, r);
    Extend(rs, sts, cap, n, r, Decide(1), r');
    rs, sts := rs + [r'], sts + [Decide(1)];
    assert MayWrite(r'.producers[1], cap) && r'.consumers[1] == FRESH;
  }

  /** Every run over rings of `cap` slots and `n` consumers keeps slots exclusive. */
  ghost predicate AlwaysExclusive(cap: nat, n: nat)
  {
    forall anchor: nat, rs: seq<Ring>, sts: seq<Step> ::
      Run(anchor, rs, sts) && |rs[0].consumers| == n && rs[0].cap == cap ==> Exclusive(rs[|rs| - 1])
  }

  /** `readSeqLow` as written protects unread slots, whatever the interleaving, exactly for one consumer. */
  lemma SafeIffOneConsumer(cap: nat, n: nat)
    requires cap > 0 && n > 0
    ensures AlwaysExclusive(cap, n) <==> n == 1
  {
    if n == 1 {
      forall anchor: nat, rs: seq<Ring>, sts: seq<Step> | Run(anchor, rs, sts) && |rs[0].consumers| == n && rs[0].cap == cap
        ensures Exclusive(rs[|rs| - 1])
      {
        SingleConsumerIsSafe(anchor, rs, sts, |rs| - 1);
      }
    } else {
      var rs, sts := UnsafeRun(cap, n, 0, seq(cap, _ => 0));
    }
  }
}
