/** What the partition ring's producers and consumers can do by themselves: hmbdc/pattern/MemRingBuffer2.hpp, lines 65-306. */
module PartitionProgress {
  import opened Common
  import opened PartitionRing
  import opened PartitionProofs

  ghost function SystemStep(): (System, Step, System) -> bool { (m, st, m') => Next(m, st, m') }

  /** The steps lead from `m` to `m'`. */
  ghost predicate Goes(m: System, sts: seq<Step>, m': System) { Leads(SystemStep(), m, sts, m') }

  lemma GoesFirst(m: System, st: Step, n: System, sts: seq<Step>, m': System)
    requires Next(m, st, n) && Goes(n, sts, m')
    ensures Goes(m, [st] + sts, m')
  {
    LeadsFrom(SystemStep(), m, st, n, sts, m');
  }

  lemma GoesOn(m: System, sts: seq<Step>, n: System, more: seq<Step>, m': System)
    requires Goes(m, sts, n) && Goes(n, more, m')
    ensures Goes(m, sts + more, m')
  {
    LeadsOn(SystemStep(), m, sts, n, more, m');
  }

  lemma {:induction false} GoesKeeps(m: System, sts: seq<Step>, m': System)
    requires Inv(m) && Goes(m, sts, m')
    ensures Inv(m')
    decreases |sts|
  {
    if sts != [] {
      var n :| SystemStep()(m, sts[0], n) && Leads(SystemStep(), n, sts[1..], m');
      StepKeeps(m, sts[0], n);
      GoesKeeps(n, sts[1..], m');
    }
  }

  predicate OnlyBy(p: nat, sts: seq<Step>) { forall i :: 0 <= i < |sts| ==> sts[i].ByProducer? && sts[i].p == p }

  predicate OnlyTo(c: nat, sts: seq<Step>) { forall i :: 0 <= i < |sts| ==> sts[i].ByConsumer? && sts[i].c == c }

  // ---- producers ------------------------------------------------------------------------------

  function After(m: System, p: nat, op: ProducerOp): System
    requires p < |m.producers| && |m.ring.slots| > 0 && ProducerEnabled(m.ring, m.producers[p], op)
  {
    m.(ring := ProducerEffect(m.ring, m.producers[p], op), producers := m.producers[p := ProducerMove(m.ring, m.producers[p], op)])
  }

  /** Nothing but what producer `p` does to its own entries has happened. */
  ghost predicate OthersSame(p: nat, m: System, m': System)
  {
    && m'.consumers == m.consumers && |m'.producers| == |m.producers|
    && (forall q :: 0 <= q < |m.producers| && q != p ==> m'.producers[q] == m.producers[q])
    && m'.ring == m.ring.(slots := m'.ring.slots, log := m'.ring.log, done := m'.ring.done) && |m'.ring.slots| == |m.ring.slots|
  }

  /** Producer `p` has committed [from, upto), and is done. */
  ghost predicate Committed(p: nat, m: System, from: nat, upto: nat, m': System)
  {
    && OthersSame(p, m, m') && p < |m'.producers| && m'.producers[p] == Idle && m'.ring.log == m.ring.log
    && forall u: nat :: u in m'.ring.done <==> u in m.ring.done || from <= u < upto
  }

  lemma CommittedMore(p: nat, m: System, from: nat, n: System, upto: nat, m': System)
    requires from < upto && OthersSame(p, m, n) && n.ring.log == m.ring.log && n.ring.done == m.ring.done + {from}
    requires Committed(p, n, from + 1, upto, m')
    ensures Committed(p, m, from, upto, m')
  {
  }

  lemma {:induction false} Commits(m: System, p: nat) returns (sts: seq<Step>, m': System)
    requires |m.ring.slots| > 0 && p < |m.producers| && m.producers[p].Committing? && m.producers[p].k <= |m.producers[p].items|
    ensures Goes(m, sts, m') && OnlyBy(p, sts)
    ensures var x := m.producers[p]; Committed(p, m, x.s + x.k, x.s + |x.items|, m')
    decreases |m.producers[p].items| - m.producers[p].k
  {
    var x := m.producers[p];
    if x.k == |x.items| {
      sts, m' := [ByProducer(p, Finish)], After(m, p, Finish);
      LeadsByOne(SystemStep(), m, ByProducer(p, Finish), m');
    } else {
      var n := After(m, p, CommitOne);
      sts, m' := Commits(n, p);
      CommittedMore(p, m, x.s + x.k, n, x.s + |x.items|, m');
      GoesFirst(m, ByProducer(p, CommitOne), n, sts, m');
      sts := [ByProducer(p, CommitOne)] + sts;
    }
  }

  /** Where a producer that writes has got to. */
  predicate WritesRight(x: Producer)
  {
    x.Writing? && x.k <= |x.items| && (if x.k == |x.items| then true else x.w <= |x.items[x.k]|)
  }

  lemma {:induction false} Writes(m: System, p: nat) returns (sts: seq<Step>, m': System)
    requires |m.ring.slots| > 0 && p < |m.producers| && WritesRight(m.producers[p])
    ensures Goes(m, sts, m') && OnlyBy(p, sts)
    ensures var x := m.producers[p]; Committed(p, m, x.s, x.s + |x.items|, m')
    decreases |m.producers[p].items| - m.producers[p].k,
              if m.producers[p].k < |m.producers[p].items| then |m.producers[p].items[m.producers[p].k]| - m.producers[p].w else 0
  {
    var x := m.producers[p];
    var op := if x.k == |x.items| then StartCommit else if x.w == |x.items[x.k]| then NextSlot else WriteWord;
    var n := After(m, p, op);
    if x.k == |x.items| { sts, m' := Commits(n, p); } else { sts, m' := Writes(n, p); }
    GoesFirst(m, ByProducer(p, op), n, sts, m');
    sts := [ByProducer(p, op)] + sts;
  }

  /** The slots of [from, upto) are given back. */
  ghost predicate AllReady(r: Ring, from: nat, upto: nat) { forall u: nat :: from <= u < upto ==> Ready(r, u) }

  lemma {:induction false} FindsSlots(m: System, p: nat) returns (sts: seq<Step>, m': System)
    requires |m.ring.slots| > 0 && p < |m.producers| && m.producers[p].WaitSlots? && m.producers[p].i < |m.producers[p].items|
    requires var x := m.producers[p]; AllReady(m.ring, x.s + x.i, x.s + |x.items|)
    ensures Goes(m, sts, m') && OnlyBy(p, sts)
    ensures var x := m.producers[p]; Committed(p, m, x.s, x.s + |x.items|, m')
    decreases |m.producers[p].items| - m.producers[p].i
  {
    var x := m.producers[p];
    assert Ready(m.ring, x.s + x.i);
    var n := After(m, p, SlotOk);
    if x.i + 1 == |x.items| { sts, m' := Writes(n, p); } else { sts, m' := FindsSlots(n, p); }
    GoesFirst(m, ByProducer(p, SlotOk), n, sts, m');
    sts := [ByProducer(p, SlotOk)] + sts;
  }

  /** There is room behind the read cursor for the claim, and the slots the producer has not checked are given back. */
  ghost predicate RoomFor(r: Ring, x: Producer)
    requires HasClaim(x)
  {
    && (x.WaitRoom? ==> x.s + |x.items| <= r.cap + r.readSeq && AllReady(r, x.s, x.s + |x.items|))
    && (x.WaitSlots? ==> AllReady(r, x.s + x.i, x.s + |x.items|))
  }

  function ClaimLo(x: Producer): nat
    requires HasClaim(x)
  {
    if x.Committing? then x.s + x.k else x.s
  }

  /** No put is stuck: at any moment of any run a producer that has claimed, and has room, completes its put by its own steps. */
  lemma NoPutIsStuck(ms: seq<System>, sts: seq<Step>, i: nat, p: nat) returns (more: seq<Step>, m': System)
    requires Run(ms, sts) && i < |ms| && p < |ms[i].producers| && HasClaim(ms[i].producers[p]) && RoomFor(ms[i].ring, ms[i].producers[p])
    ensures Goes(ms[i], more, m') && OnlyBy(p, more)
    ensures var x := ms[i].producers[p]; Committed(p, ms[i], ClaimLo(x), x.s + |x.items|, m')
  {
    Reachable(ms, sts, i);
    more, m' := PutGoesOn(ms[i], p);
  }

  lemma PutGoesOn(m: System, p: nat) returns (sts: seq<Step>, m': System)
    requires Inv(m) && p < |m.producers| && HasClaim(m.producers[p]) && RoomFor(m.ring, m.producers[p])
    ensures Goes(m, sts, m') && OnlyBy(p, sts)
    ensures var x := m.producers[p]; Committed(p, m, ClaimLo(x), x.s + |x.items|, m')
  {
    var x := m.producers[p];
    assert Shape(m.ring, x) && Base(m.ring);
    match x
    case Writing(items, s, k, _) =>
      if k < |items| { assert m.ring.log[s..s + |items|][k] == items[k]; }
      sts, m' := Writes(m, p);
    case Committing(_, _, _) => sts, m' := Commits(m, p);
    case WaitSlots(_, _, _) => sts, m' := FindsSlots(m, p);
    case WaitRoom(_, _) =>
      var n := After(m, p, RoomOk);
      sts, m' := FindsSlots(n, p);
      GoesFirst(m, ByProducer(p, RoomOk), n, sts, m');
      sts := [ByProducer(p, RoomOk)] + sts;
  }

  /** `items` are put behind everything claimed. */
  ghost predicate PutBy(p: nat, m: System, items: seq<seq<int>>, m': System)
  {
    && OthersSame(p, m, m') && p < |m'.producers| && m'.producers[p] == Idle && m'.ring.log == m.ring.log + items
    && forall u: nat :: u in m'.ring.done <==> u in m.ring.done || |m.ring.log| <= u < |m.ring.log| + |items|
  }

  /**
   * An undisturbed try succeeds exactly if there is room behind the read cursor and the slot is given back: then the item
   * is put, else nothing has changed.
   */
  lemma TryAlone(m: System, p: nat, item: seq<int>) returns (sts: seq<Step>, m': System)
    requires |m.ring.slots| > 0 && p < |m.producers| && m.producers[p] == Idle && |item| == m.ring.width
    ensures Goes(m, [ByProducer(p, TryBegin(item))] + sts, m') && OnlyBy(p, sts)
    ensures if |m.ring.log| < m.ring.cap + m.ring.readSeq && Ready(m.ring, |m.ring.log|) then PutBy(p, m, [item], m') else m' == m
  {
    var s := |m.ring.log|;
    var m1 := After(m, p, TryBegin(item));
    if s >= m.ring.cap + m.ring.readSeq {
      sts, m' := [ByProducer(p, GiveUp)], m;
      assert After(m1, p, GiveUp) == m;
      LeadsByOne(SystemStep(), m1, ByProducer(p, GiveUp), m);
    } else {
      var m2 := After(m1, p, TryRoomOk);
      if !Ready(m.ring, s) {
        sts, m' := [ByProducer(p, GiveUp)], m;
        assert After(m2, p, GiveUp) == m;
        LeadsByOne(SystemStep(), m2, ByProducer(p, GiveUp), m);
      } else {
        sts, m' := TryWins(m2, p);
      }
      GoesFirst(m1, ByProducer(p, TryRoomOk), m2, sts, m');
      sts := [ByProducer(p, TryRoomOk)] + sts;
    }
    GoesFirst(m, ByProducer(p, TryBegin(item)), m1, sts, m');
  }

  lemma TryWins(m: System, p: nat) returns (sts: seq<Step>, m': System)
    requires |m.ring.slots| > 0 && p < |m.producers| && m.producers[p].TrySlot? && m.producers[p].s == |m.ring.log|
    requires Ready(m.ring, m.producers[p].s)
    ensures Goes(m, sts, m') && OnlyBy(p, sts) && PutBy(p, m, [m.producers[p].item], m')
  {
    var m1 := After(m, p, TrySlotOk);
    var m2 := After(m1, p, CasOk);
    sts, m' := Writes(m2, p);
    GoesFirst(m1, ByProducer(p, CasOk), m2, sts, m');
    GoesFirst(m, ByProducer(p, TrySlotOk), m1, [ByProducer(p, CasOk)] + sts, m');
    sts := [ByProducer(p, TrySlotOk)] + ([ByProducer(p, CasOk)] + sts);
  }

  // ---- consumers ------------------------------------------------------------------------------

  function AfterTo(m: System, c: nat, op: ConsumerOp): System
    requires c < |m.consumers| && ConsumerEnabled(m.ring, m.consumers[c], op)
  {
    m.(ring := ConsumerEffect(m.ring, c, m.consumers[c], op), consumers := m.consumers[c := ConsumerMove(m.ring, m.consumers[c], op)])
  }

  /** Nothing but the read cursor, what is handed out and given back, and consumer `c` has changed. */
  ghost predicate ProducersSame(c: nat, m: System, m': System)
  {
    && m'.producers == m.producers && |m'.consumers| == |m.consumers|
    && (forall d :: 0 <= d < |m.consumers| && d != c ==> m'.consumers[d] == m.consumers[d])
    && m'.ring.cap == m.ring.cap && m'.ring.width == m.ring.width && m'.ring.log == m.ring.log && m'.ring.done == m.ring.done
    && |m'.ring.slots| == |m.ring.slots|
  }

  /** Consumer `c` has given back [from, upto), and is done. */
  ghost predicate GaveBack(c: nat, m: System, from: nat, upto: nat, m': System)
  {
    && ProducersSame(c, m, m') && c < |m'.consumers| && m'.consumers[c] == Free
    && m'.ring.readSeq == m.ring.readSeq && m'.ring.handed == m.ring.handed
    && forall u: nat :: u in m'.ring.freed <==> u in m.ring.freed || from <= u < upto
  }

  /** What a consumer holds it can give back. */
  lemma {:induction false} GivesBack(m: System, c: nat) returns (sts: seq<Step>, m': System)
    requires |m.ring.slots| > 0 && c < |m.consumers| && m.consumers[c].Hold? && m.consumers[c].w <= m.consumers[c].e
    ensures Goes(m, sts, m') && OnlyTo(c, sts) && GaveBack(c, m, m.consumers[c].w, m.consumers[c].e, m')
    decreases m.consumers[c].e - m.consumers[c].w
  {
    var y := m.consumers[c];
    if y.w == y.e {
      sts, m' := [ByConsumer(c, WasteEnd)], AfterTo(m, c, WasteEnd);
      LeadsByOne(SystemStep(), m, ByConsumer(c, WasteEnd), m');
    } else {
      var n := AfterTo(m, c, WasteOne);
      sts, m' := GivesBack(n, c);
      GaveBackMore(c, m, y.w, n, y.e, m');
      GoesFirst(m, ByConsumer(c, WasteOne), n, sts, m');
      sts := [ByConsumer(c, WasteOne)] + sts;
    }
  }

  lemma GaveBackMore(c: nat, m: System, from: nat, n: System, upto: nat, m': System)
    requires from < upto && ProducersSame(c, m, n) && n.ring.readSeq == m.ring.readSeq && n.ring.handed == m.ring.handed
    requires n.ring.freed == m.ring.freed + {from} && GaveBack(c, n, from + 1, upto, m')
    ensures GaveBack(c, m, from, upto, m')
  {
  }

  /** Consumer `c` was handed [readSeq, upto), and gave it back. */
  ghost predicate GotBy(c: nat, m: System, upto: nat, value: Option<seq<int>>, m': System)
  {
    && ProducersSame(c, m, m') && c < |m'.consumers| && m'.consumers[c] == Free
    && m'.ring.readSeq == upto && m'.ring.handed == m.ring.handed + [Handed(c, m.ring.readSeq, upto, value)]
    && forall u: nat :: u in m'.ring.freed <==> u in m.ring.freed || m.ring.readSeq <= u < upto
  }

  lemma IsTagged(r: Ring, u: nat)
    requires Base(r) && r.readSeq <= u && u in r.done
    ensures |r.slots| > 0 && r.slots[u % |r.slots|].tag == Some(u)
  {
    assert Stored(r, u) && Holds(r, u);
  }

  lemma {:induction false} ScansTo(m: System, c: nat, upto: nat) returns (sts: seq<Step>)
    requires Base(m.ring) && c < |m.consumers| && m.consumers[c].Scan? && m.ring.readSeq <= m.consumers[c].e <= upto
    requires forall u: nat :: m.consumers[c].e <= u < upto ==> u in m.ring.done
    ensures Goes(m, sts, m.(consumers := m.consumers[c := Scan(m.consumers[c].b, upto)])) && OnlyTo(c, sts)
    decreases upto - m.consumers[c].e
  {
    var y, m' := m.consumers[c], m.(consumers := m.consumers[c := Scan(m.consumers[c].b, upto)]);
    if y.e == upto {
      sts := [];
      assert m' == m;
    } else {
      IsTagged(m.ring, y.e);
      var n := AfterTo(m, c, PeekMore);
      sts := ScansTo(n, c, upto);
      assert n.(consumers := n.consumers[c := Scan(y.b, upto)]) == m';
      GoesFirst(m, ByConsumer(c, PeekMore), n, sts, m');
      sts := [ByConsumer(c, PeekMore)] + sts;
    }
  }

  /** A free consumer can peek everything committed behind the read cursor, and give it back. */
  lemma PeeksAlone(m: System, c: nat, upto: nat) returns (sts: seq<Step>, m': System)
    requires Inv(m) && c < |m.consumers| && m.consumers[c] == Free && m.ring.readSeq <= upto
    requires forall u: nat :: m.ring.readSeq <= u < upto ==> u in m.ring.done
    ensures Goes(m, sts, m') && OnlyTo(c, sts) && Inv(m') && GotBy(c, m, upto, None, m')
  {
    var b := m.ring.readSeq;
    var m1 := AfterTo(m, c, PeekBegin);
    var scans := ScansTo(m1, c, upto);
    var m2 := m1.(consumers := m1.consumers[c := Scan(b, upto)]);
    var m3 := AfterTo(m2, c, PeekCas);
    var more;
    more, m' := GivesBack(m3, c);
    GoesFirst(m2, ByConsumer(c, PeekCas), m3, more, m');
    GoesOn(m1, scans, m2, [ByConsumer(c, PeekCas)] + more, m');
    sts := scans + ([ByConsumer(c, PeekCas)] + more);
    GoesFirst(m, ByConsumer(c, PeekBegin), m1, sts, m');
    sts := [ByConsumer(c, PeekBegin)] + sts;
    GoesKeeps(m, sts, m');
  }

  lemma {:induction false} CopiesAll(m: System, c: nat) returns (sts: seq<Step>, copied: seq<int>)
    requires Base(m.ring) && c < |m.consumers| && m.consumers[c].Copy? && m.consumers[c].seen && |m.consumers[c].copied| <= m.ring.width
    ensures Goes(m, sts, m.(consumers := m.consumers[c := Copy(m.consumers[c].s, true, copied)])) && OnlyTo(c, sts) && |copied| == m.ring.width
    decreases m.ring.width - |m.consumers[c].copied|
  {
    var y := m.consumers[c];
    if |y.copied| == m.ring.width {
      sts, copied := [], y.copied;
      assert m.(consumers := m.consumers[c := Copy(y.s, true, copied)]) == m;
    } else {
      var n := AfterTo(m, c, CopyWord);
      sts, copied := CopiesAll(n, c);
      var m' := m.(consumers := m.consumers[c := Copy(y.s, true, copied)]);
      assert n.(consumers := n.consumers[c := Copy(y.s, true, copied)]) == m';
      GoesFirst(m, ByConsumer(c, CopyWord), n, sts, m');
      sts := [ByConsumer(c, CopyWord)] + sts;
    }
  }

  /** Once it has copied the item. */
  lemma EndsTake(m: System, c: nat) returns (sts: seq<Step>, m': System)
    requires |m.ring.slots| > 0 && c < |m.consumers| && m.consumers[c].Copy? && m.consumers[c].seen && |m.consumers[c].copied| == m.ring.width
    requires m.ring.readSeq == m.consumers[c].s
    ensures Goes(m, sts, m') && OnlyTo(c, sts) && GotBy(c, m, m.ring.readSeq + 1, Some(m.consumers[c].copied), m')
  {
    var n := AfterTo(m, c, TakeCas);
    sts, m' := GivesBack(n, c);
    GoesFirst(m, ByConsumer(c, TakeCas), n, sts, m');
    sts := [ByConsumer(c, TakeCas)] + sts;
  }

  lemma BeginsTake(m: System, c: nat) returns (sts: seq<Step>, copied: seq<int>)
    requires Base(m.ring) && c < |m.consumers| && m.consumers[c] == Free && m.ring.readSeq in m.ring.done
    ensures Goes(m, sts, m.(consumers := m.consumers[c := Copy(m.ring.readSeq, true, copied)])) && OnlyTo(c, sts) && |copied| == m.ring.width
  {
    var s := m.ring.readSeq;
    IsTagged(m.ring, s);
    var m1 := AfterTo(m, c, TakeBegin);
    var m2 := AfterTo(m1, c, TakeSee);
    sts, copied := CopiesAll(m2, c);
    var m3 := m.(consumers := m.consumers[c := Copy(s, true, copied)]);
    assert m2.(consumers := m2.consumers[c := Copy(s, true, copied)]) == m3;
    GoesFirst(m1, ByConsumer(c, TakeSee), m2, sts, m3);
    GoesFirst(m, ByConsumer(c, TakeBegin), m1, [ByConsumer(c, TakeSee)] + sts, m3);
    sts := [ByConsumer(c, TakeBegin)] + ([ByConsumer(c, TakeSee)] + sts);
  }

  /** A free consumer can take the next committed item, and gets what was put. */
  lemma TakesAlone(m: System, c: nat) returns (sts: seq<Step>, m': System)
    requires Inv(m) && c < |m.consumers| && m.consumers[c] == Free && m.ring.readSeq in m.ring.done
    ensures Goes(m, sts, m') && OnlyTo(c, sts) && Inv(m')
    ensures m.ring.readSeq < |m.ring.log| && GotBy(c, m, m.ring.readSeq + 1, Some(m.ring.log[m.ring.readSeq]), m')
  {
    var first, copied := BeginsTake(m, c);
    var n := m.(consumers := m.consumers[c := Copy(m.ring.readSeq, true, copied)]);
    var more;
    more, m' := EndsTake(n, c);
    GoesOn(m, first, n, more, m');
    sts := first + more;
    GoesKeeps(m, sts, m');
    assert ValueOk(m'.ring, m'.ring.handed[|m.ring.handed|]);
  }

  /** At any moment of any run a free consumer gets what is committed next, the item or the whole range, by its own steps. */
  lemma CommittedCanBeTaken(ms: seq<System>, sts: seq<Step>, i: nat, c: nat, upto: nat) returns (takes: seq<Step>, m1: System, peeks: seq<Step>, m2: System)
    requires Run(ms, sts) && i < |ms| && c < |ms[i].consumers| && ms[i].consumers[c] == Free && ms[i].ring.readSeq < upto
    requires forall u: nat :: ms[i].ring.readSeq <= u < upto ==> u in ms[i].ring.done
    ensures ms[i].ring.readSeq < |ms[i].ring.log|
    ensures Goes(ms[i], takes, m1) && OnlyTo(c, takes) && GotBy(c, ms[i], ms[i].ring.readSeq + 1, Some(ms[i].ring.log[ms[i].ring.readSeq]), m1)
    ensures Goes(ms[i], peeks, m2) && OnlyTo(c, peeks) && GotBy(c, ms[i], upto, None, m2)
  {
    Reachable(ms, sts, i);
    takes, m1 := TakesAlone(ms[i], c);
    peeks, m2 := PeeksAlone(ms[i], c, upto);
  }
}
