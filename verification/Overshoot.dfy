/**
 * What happens when the scan for the smallest cursor overshoots, hmbdc/pattern/MemRingBuffer.hpp, lines 69-71: it settles
 * on the multicast cursor while both are equal, and re-reads it after that cursor alone has moved on.
 */
module Overshoot {
  import opened Common
  import opened Messages
  import opened Receiver
  import opened Sender
  import opened LinkProofs
  import opened Delivery
  import opened RunBuilding
  import R = BroadcastRing
  import L = BroadcastLimits
  import N = SenderRing
  import T = Theorems

  const TAG: Tag := 100
  const SUBS: set<Tag> := {START_TAG, SEG_TAG, TAG}

  function Plain(v: byte): Entry { Entry(Msg(TAG, [v]), 0, 0, 0) }

  /** A message that fills `cap` slots: on its own, or with an attachment. */
  function Whole(cap: nat): (s: seq<Entry>)
    requires cap > 0
    ensures |s| == cap && s[cap - 1] == Plain(1)
  {
    if cap == 1 then [Plain(1)]
    else [Entry(Msg(START_TAG, [100, 0]), 0, cap - 2, 0)] + seq(cap - 2, _ => Entry(Msg(SEG_TAG, []), TAG, 0, 0)) + [Plain(1)]
  }

  lemma WholeIsPuttable(cap: nat)
    requires cap > 0
    ensures Puttable(Whole(cap))
  {
  }

  // ---- the ring's part ------------------------------------------------------------------------

  /** The numbers in the ring stand for a first message and those that fill it. */
  function Coded(cap: nat): int -> Entry
    requires cap > 0
  {
    k => if 1 <= k <= cap then Whole(cap)[k - 1] else Plain(0)
  }

  function Numbers(cap: nat): seq<int> { seq(cap, i => i + 1) }

  /** `y` is what the protocol sees of the ring. */
  ghost predicate Mirrors(cap: nat, r: R.Ring, y: System)
    requires cap > 0
  {
    N.TwoCursors(r) && N.Seen(Coded(cap), Plain(0), N.Impl(r, y)) == y
  }

  lemma OverrunIsSeen(cap: nat, r: R.Ring, y: System, inside: bool)
    requires cap > 0 && r.cap == cap && L.Overruns(r, 0, Numbers(cap), inside) && |r.consumers| == 2
    requires y.snd.cap == cap && y.snd.visible == y.snd.rs0 == 1 && y.snd.rs1 == 0
    requires y.snd.log == if inside then [Plain(0)] + Whole(cap) else [Plain(0)]
    requires y.snd.slots == Fill(N.Blank(cap, Plain(0)), 0, y.snd.log)
    ensures Mirrors(cap, r, y)
  {
    var f := N.Frontier(r);
    assert N.Waits(r.producers[1]) <==> !inside;
    assert f == if inside then 1 + cap else 1 by {
      if f != |r.log| {
        var p :| 0 <= p < |r.producers| && N.Waits(r.producers[p]) && r.producers[p].s == f;
      }
    }
    assert N.Entries(Coded(cap), r.log[..f]) == y.snd.log;
  }

  // ---- the protocol's part --------------------------------------------------------------------

  /** A session has joined, and the first message is written. */
  lemma FirstWritten(cap: nat) returns (y: System)
    requires 0 < cap && cap + 1 < WIRE_SEQ_MAX
    ensures Reached(y, true) && y.links == map[0 := Joined(SUBS)]
    ensures y.snd == Wrote(cap, [Plain(0)], Fill(N.Blank(cap, Plain(0)), 0, [Plain(0)]), 1)
  {
    var log, links := [Plain(0)], map[0 := Joined(SUBS)];
    assert log[0..] == log && Writable(log[..0]) && Writable(log);
    Joins(cap, Plain(0), SUBS);
    assert Initial(cap, 0, Plain(0)) == Wrote(cap, log[..0], N.Blank(cap, Plain(0)), 0);
    WritesMore(cap, links, log, 0, N.Blank(cap, Plain(0)));
    var slots := Fill(N.Blank(cap, Plain(0)), 0, log);
    Exposes(cap, links, log, slots, 1);
    y := System(Wrote(cap, log, slots, 1), links);
  }

  /** It was sent and lost, and the only session has asked for it. */
  lemma Prepared(cap: nat) returns (x: Sender)
    requires 0 < cap && cap + 1 < WIRE_SEQ_MAX
    ensures Reached(System(x, map[0 := Asking(SUBS, 1)]), true)
    ensures x.log == [Plain(0)] && x.cap == cap && x.rs0 == x.visible == 1 && x.rs1 == 0 && x.slots == Fill(N.Blank(cap, Plain(0)), 0, x.log)
  {
    var y := FirstWritten(cap);
    var log, links := [Plain(0)], map[0 := Joined(SUBS)];
    var ends, net := LosesAndAlerts(cap, links, log, y.snd.slots, 1);
    x := Alerted(cap, log, y.snd.slots, 1, ends, net);
    AsksForAll(System(x, links), SUBS, 1, true);
    assert Moved(System(x, links), Asking(SUBS, 1)) == System(x, map[0 := Asking(SUBS, 1)]);
  }

  /** The producer is let in: the re-read found the multicast cursor at 1. */
  lemma Overwrites(y: System, cap: nat)
    requires Reached(y, false) && 0 < cap && cap + 1 < WIRE_SEQ_MAX
    requires y.snd.cap == cap && y.snd.rs0 == 1 && y.snd.rs1 == 0
    requires y.snd.log == [Plain(0)] && y.snd.slots == Fill(N.Blank(cap, Plain(0)), 0, y.snd.log)
    ensures CanPut(y.snd, Whole(cap), 1) && !ClearPut(y.snd, StepPut(Whole(cap), 1))
    ensures var x := Put(y.snd, Whole(cap));
      && Reached(y.(snd := x), false) && x.slots == Fill(N.Blank(cap, Plain(0)), 0, x.log) && |x.slots| == cap && x.slots[0] == Plain(1)
  {
    ReachedHasInv(y, false);
    WholeIsPuttable(cap);
    TakesStep(y, StepPut(Whole(cap), 1), y.(snd := Put(y.snd, Whole(cap))), false);
    N.FillOn(N.Blank(cap, Plain(0)), 0, y.snd.log, Whole(cap));
    FillAt(y.snd.slots, 1, Whole(cap), cap);
    assert cap % cap == 0 by { NextTurn(0, cap); SmallSlot(0, cap); }
  }

  /** The session after it took the frame sent for sequence 0. */
  function Misled(): Link
  {
    var l := Asking(SUBS, 1);
    l.(queue := [], bufItNext := 1, recv := PunchRecv(l.recv, Item(Plain(1).msg)))
  }

  lemma ServesWrong(x: Sender)
    requires Reached(System(x, map[0 := Asking(SUBS, 1)]), false) && |x.slots| > 0 && x.slots[0] == Plain(1)
    requires x.rs0 == 1 && x.cap > 0 && x.visible <= |x.log| && !x.stopped
    ensures Reached(System(x, map[0 := Misled()]), false)
  {
    var l := Asking(SUBS, 1);
    var frame := Item(Plain(1).msg);
    var l1 := l.(queue := [], bufItNext := 1, down := [frame]);
    SmallSlot(0, |x.slots|);
    assert Frames(x.slots, SUBS, 0, 1) == [frame];
    assert l.queue[1..] == [] && [] + [frame] == [frame];
    assert Serve1(x, l, 1, 1) == l1;
    var y, y1, y2 := System(x, map[0 := l]), System(x, map[0 := l1]), System(x, map[0 := Misled()]);
    assert y.links[0 := l1] == y1.links;
    TakesStep(y, StepLink(0, Serve(1, 1)), y1, false);
    PunchValue(l1);
    assert l1.down[1..] == [];
    assert y1.links[0 := Misled()] == y2.links;
    TakesStep(y1, StepLink(0, TakeTcp), y2, false);
  }

  /**
   * For a ring of any size there is a run of it, and one of the protocol on top of it, in which a scan whose re-read
   * overshoots lets a producer into a slot that a live session still needs (`y0` before, `y` after). The session is then
   * sent, and its receiver outputs, the later message in place of the first.
   */
  lemma SendsWrongMessage(cap: nat) returns (rs: seq<R.Ring>, sts: seq<R.Step>, y0: System, y: System, z: System)
    requires 0 < cap && cap + 1 < WIRE_SEQ_MAX
    ensures R.Run(0, rs, sts) && sts != [] && sts[|sts| - 1] == R.Decide(1) && rs[0].cap == cap
    ensures Reached(y0, true) && Mirrors(cap, rs[|rs| - 2], y0) && Reached(y, false) && Mirrors(cap, rs[|rs| - 1], y)
    ensures 0 in y.links && y.links == y0.links && y.links[0].alive && y.links[0].bufItNext == 0
    ensures |y.snd.log| == cap + 1 && |y.snd.slots| == cap && y.snd.slots[0] != y.snd.log[0]
    ensures Reached(z, false) && z.snd == y.snd && 0 in z.links && z.links[0].alive
    ensures var r := z.links[0].recv;
      r.minSeq == 0 && r.arb.expecting == 1 && z.snd.log[0].msg.tag in r.subs && r.output == [z.snd.log[cap].msg] != [z.snd.log[0].msg]
  {
    var x := Prepared(cap);
    y0 := System(x, map[0 := Asking(SUBS, 1)]);
    ClearIsAny(y0);
    Overwrites(y0, cap);
    y := y0.(snd := Put(x, Whole(cap)));
    assert y == System(y.snd, map[0 := Asking(SUBS, 1)]) && |y.snd.log| == cap + 1;
    ServesWrong(y.snd);
    z := System(y.snd, map[0 := Misled()]);
    rs, sts := RingOverruns(cap, y0, y);
  }

  /** The ring's part of it. */
  lemma RingOverruns(cap: nat, y0: System, y: System) returns (rs: seq<R.Ring>, sts: seq<R.Step>)
    requires cap > 0 && y0.snd.cap == cap && y0.snd.visible == y0.snd.rs0 == 1 && y0.snd.rs1 == 0
    requires y0.snd.log == [Plain(0)] && y0.snd.slots == Fill(N.Blank(cap, Plain(0)), 0, y0.snd.log)
    requires y.snd.cap == cap && y.snd.visible == y.snd.rs0 == 1 && y.snd.rs1 == 0
    requires y.snd.log == [Plain(0)] + Whole(cap) && y.snd.slots == Fill(N.Blank(cap, Plain(0)), 0, y.snd.log)
    ensures R.Run(0, rs, sts) && sts != [] && sts[|sts| - 1] == R.Decide(1) && rs[0].cap == cap
    ensures Mirrors(cap, rs[|rs| - 2], y0) && Mirrors(cap, rs[|rs| - 1], y)
  {
    rs, sts := L.UnsafeRun(cap, 2, 0, Numbers(cap));
    SameSize(rs, sts, |rs| - 1);
    SameSize(rs, sts, |rs| - 2);
    OverrunIsSeen(cap, rs[|rs| - 2], y0, false);
    OverrunIsSeen(cap, rs[|rs| - 1], y, true);
  }

  lemma {:induction false} SameSize(rs: seq<R.Ring>, sts: seq<R.Step>, i: nat)
    requires R.Run(0, rs, sts) && i < |rs|
    ensures rs[i].cap == rs[0].cap && |rs[i].consumers| == |rs[0].consumers|
  {
    if i > 0 {
      SameSize(rs, sts, i - 1);
      assert R.Next(0, rs[i - 1], sts[i - 1], rs[i]);
    }
  }

  // ---- a correct receiver is cut off ----------------------------------------------------------

  lemma {:induction false} ExposesAll(y: System, n: nat, clear: bool)
    requires Reached(y, clear) && y.snd.visible <= n <= |y.snd.log|
    ensures Reached(y.(snd := y.snd.(visible := n)), clear)
    decreases n
  {
    if y.snd.visible < n {
      ExposesAll(y, n - 1, clear);
      ReachedHasInv(y, clear);
      TakesStep(y.(snd := y.snd.(visible := n - 1)), StepExpose, y.(snd := y.snd.(visible := n)), clear);
    }
  }

  /** Entries go out by multicast, in one datagram. */
  lemma Sends(y: System, k: nat, clear: bool) returns (z: System)
    requires Reached(y, clear) && y.snd.batch == NoBatch && 0 < k && y.snd.rs0 + k <= y.snd.visible
    ensures Reached(z, clear) && z.links == y.links && z.snd == y.snd.(rs0 := y.snd.rs0 + k, alertSeq := y.snd.rs0 + k,
              cleanup := z.snd.cleanup, queued := z.snd.queued, net := z.snd.net)
  {
    ReachedHasInv(y, clear);
    var y1 := y.(snd := Build(y.snd, k, false, false));
    TakesStep(y, StepBuild(k, false, false), y1, clear);
    z := y1.(snd := Multicast(y1.snd));
    TakesStep(y1, StepMulticast, z, clear);
  }

  lemma Alerts(y: System, clear: bool) returns (z: System)
    requires Reached(y, clear) && y.snd.batch == NoBatch && y.snd.alertSeq == y.snd.rs0
    ensures Reached(z, clear) && z.links == y.links && z.snd == y.snd.(net := z.snd.net) && [Alert(y.snd.rs0)] in z.snd.net
  {
    ReachedHasInv(y, clear);
    var y1 := y.(snd := Build(y.snd, 0, false, true));
    TakesStep(y, StepBuild(0, false, true), y1, clear);
    assert y1.snd.cleanup == y.snd.cleanup && y1.snd.queued == y.snd.queued;
    z := y1.(snd := Multicast(y1.snd));
    TakesStep(y1, StepMulticast, z, clear);
    assert Datagram(y1.snd) == [Alert(y.snd.rs0)];
  }

  /** The overshoot, with a session that has heard of nothing yet; then the multicast of everything is lost but for the alert. */
  lemma LosesAll(cap: nat) returns (y: System)
    requires 0 < cap && cap + 1 < WIRE_SEQ_MAX
    ensures Reached(y, false) && y.links == map[0 := Joined(SUBS)] && y.snd.cap == cap && y.snd.rs1 == 0
    ensures |y.snd.log| == y.snd.rs0 == cap + 1 && [Alert(cap + 1)] in y.snd.net
  {
    y := FirstWritten(cap);
    y := Sends(y, 1, true);
    ReachedHasInv(y, true);
    Overwrites(y, cap);
    y := y.(snd := Put(y.snd, Whole(cap)));
    ExposesAll(y, cap + 1, false);
    y := y.(snd := y.snd.(visible := cap + 1));
    y := Sends(y, cap, false);
    y := Alerts(y, false);
  }

  /**
   * For a ring of any size: after a scan has overshot, a receiver that follows the protocol can ask for more than a ring,
   * which is refused. Whatever the two ends do then, the gap stays open.
   */
  lemma CutsOff(cap: nat) returns (y: System)
    requires 0 < cap && cap + 1 < WIRE_SEQ_MAX
    ensures Reached(y, false) && y.snd.cap == cap && 0 in y.links && y.links[0].alive && y.links[0].recv.gapPending
    ensures var l := y.links[0]; l.queue == [Request(0, cap + 1)] && BadRequest(y.snd, l, l.queue[0]) && !T.CanClose(y.snd, l)
  {
    var w := LosesAll(cap);
    AsksForAll(w, SUBS, cap + 1, false);
    y := Moved(w, Asking(SUBS, cap + 1));
    var states: seq<System>, steps: seq<Step> :| RunTo(states, steps, y, false);
    T.GapCanCloseIffShort(states, steps, |steps|, 0);
    var l := y.links[0];
    assert T.Outstanding(l) == l.queue;
    assert T.Outstanding(l)[0].len > y.snd.cap;
  }
}
