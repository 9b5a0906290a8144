/** Runs of the system, built step by step, for showing that something can happen. */
module RunBuilding {
  import opened Common
  import opened Messages
  import opened Receiver
  import opened Sender
  import opened Invariants
  import opened Delivery

  /** Some run gets to `y`, if `clear` one in which no producer is let in too early. */
  ghost predicate GetsTo(y: System, clear: bool) { exists states: seq<System>, steps: seq<Step> :: RunTo(states, steps, y, clear) }

  /** And the sender has not stopped. */
  ghost predicate Reached(y: System, clear: bool) { !y.snd.stopped && GetsTo(y, clear) }

  ghost predicate RunTo(states: seq<System>, steps: seq<Step>, y: System, clear: bool)
  {
    Run(states, steps) && (clear ==> ClearRun(states, steps)) && states[|steps|] == y
  }

  lemma Extend(states: seq<System>, steps: seq<Step>, st: Step, z: System)
    requires Run(states, steps) && Next(states[|steps|], st, z)
    ensures Run(states + [z], steps + [st])
    ensures ClearRun(states, steps) && ClearPut(states[|steps|].snd, st) ==> ClearRun(states + [z], steps + [st])
  {
    var ys, ss := states + [z], steps + [st];
    assert ys[0] == states[0];
    forall i | 0 <= i < |ss| ensures Next(ys[i], ss[i], ys[i + 1]) {
      if i < |steps| { assert Next(states[i], steps[i], states[i + 1]); }
    }
    if ClearRun(states, steps) && ClearPut(states[|steps|].snd, st) {
      forall i | 0 <= i < |ss| ensures ClearPut(ys[i].snd, ss[i]) {
        if i < |steps| { assert ClearPut(states[i].snd, steps[i]); }
      }
    }
  }

  lemma ClearIsAny(y: System)
    requires GetsTo(y, true)
    ensures GetsTo(y, false)
  {
    var states: seq<System>, steps: seq<Step> :| RunTo(states, steps, y, true);
    assert RunTo(states, steps, y, false);
  }

  lemma GoesOn(y: System, st: Step, z: System, clear: bool)
    requires GetsTo(y, clear) && Next(y, st, z) && (clear ==> ClearPut(y.snd, st))
    ensures GetsTo(z, clear)
  {
    var states: seq<System>, steps: seq<Step> :| RunTo(states, steps, y, clear);
    Extend(states, steps, st, z);
    assert RunTo(states + [z], steps + [st], z, clear);
  }

  lemma TakesStep(y: System, st: Step, z: System, clear: bool)
    requires Reached(y, clear) && Next(y, st, z) && (clear ==> ClearPut(y.snd, st)) && !st.StepStop?
    ensures Reached(z, clear)
  {
    GoesOn(y, st, z, clear);
  }

  lemma ReachedHasInv(y: System, clear: bool)
    requires GetsTo(y, clear)
    ensures Inv(y) && GetsTo(y, false) && (clear ==> HasRoom(y.snd))
  {
    var states: seq<System>, steps: seq<Step> :| RunTo(states, steps, y, clear);
    Reachable(states, steps, |steps|);
    if clear { ClearRunHasRoom(states, steps, |steps|); }
    assert RunTo(states, steps, y, false);
  }

  lemma Starts(cap: nat, blank: Entry)
    requires cap > 0
    ensures Reached(System(Initial(cap, 0, blank), map[]), true)
  {
    var y := System(Initial(cap, 0, blank), map[]);
    var states, steps: seq<Step> := [y], [];
    assert RunTo(states, steps, y, true);
  }

  /** `y` after its only session has performed `op`. */
  function Moved(y: System, l: Link): System { y.(links := map[0 := l]) }

  lemma Moves(y: System, op: LinkOp, clear: bool)
    requires Reached(y, clear) && 0 in y.links && y.links == map[0 := y.links[0]] && Enabled(y.snd, y.links[0], op)
    ensures Reached(Moved(y, Apply(y.snd, y.links[0], op)), clear)
  {
    ReachedHasInv(y, clear);
    var z := Moved(y, Apply(y.snd, y.links[0], op));
    assert y.links[0 := Apply(y.snd, y.links[0], op)] == z.links;
    TakesStep(y, StepLink(0, op), z, clear);
  }

  // ---- a session joins ------------------------------------------------------------------------

  /** A session at the start of the log whose subscriptions have arrived. */
  function Joined(subs: set<Tag>): Link
  {
    Link(true, true, true, 0, NoRelic, [], subs, [], [], Recv(subs, 0, SeqArb.Arb(0, [0, 0]), false, 0, []), [])
  }

  lemma {:induction false} ListOf(subs: set<Tag>) returns (order: seq<Tag>)
    ensures Lists(order, subs)
  {
    if subs == {} {
      order := [];
    } else {
      var t :| t in subs;
      order := ListOf(subs - {t});
      order := [t] + order;
    }
  }

  /** The sender reads the subscriptions one by one. */
  lemma {:induction false} ReadsSubscriptions(y: System, order: seq<Tag>, have: set<Tag>, subs: set<Tag>)
    requires Reached(y, true) && y.links == map[0 := Joined(subs).(ready := false, clientSubs := have, up := Subscriptions(order))]
    requires forall t :: t in subs <==> t in have || t in order
    ensures Reached(Moved(y, Joined(subs)), true)
    decreases |order|
  {
    var l, c := y.links[0], Subscriptions(order);
    ReachedHasInv(y, true);
    Moves(y, ReadCommand, true);
    var z := Moved(y, Apply(y.snd, l, ReadCommand));
    if order == [] {
      assert c[1..] == [] && have == subs;
      assert z == Moved(y, Joined(subs));
    } else {
      assert c[0] == Subscribe(order[0]) && c[1..] == Subscriptions(order[1..]);
      ReadsSubscriptions(z, order[1..], have + {order[0]}, subs);
      assert Moved(z, Joined(subs)) == Moved(y, Joined(subs));
    }
  }

  lemma Joins(cap: nat, blank: Entry, subs: set<Tag>)
    requires cap > 0 && START_TAG in subs && SEG_TAG in subs
    ensures Reached(System(Initial(cap, 0, blank), map[0 := Joined(subs)]), true)
  {
    Starts(cap, blank);
    var x := Initial(cap, 0, blank);
    var y := System(x, map[]);
    var l1 := NewLink(x, subs);
    var y1 := System(x, map[0 := l1]);
    assert y.links[0 := l1] == y1.links;
    TakesStep(y, StepAccept(0, subs), y1, true);
    var order := ListOf(subs);
    Moves(y1, Connect(order), true);
    var l2 := l1.(connected := true, up := Subscriptions(order));
    var y2 := Moved(y1, l2);
    Moves(y2, TakeTcp, true);
    assert l2.up + [] == l2.up;
    var l3 := Joined(subs).(ready := false, clientSubs := {}, up := Subscriptions(order));
    assert TakeTcp1(l2) == l3;
    ReadsSubscriptions(Moved(y2, l3), order, {}, subs);
  }

  // ---- the log is written ---------------------------------------------------------------------

  /** Messages and whole trains, one after the other: what producers can write. */
  ghost predicate Writable(log: seq<Entry>)
    decreases |log|
  {
    log == [] || exists k: nat :: k < |log| && Puttable(log[k..]) && Writable(log[..k])
  }

  /** Every log of every run is of this kind. */
  lemma {:induction false} LogsAreWritable(states: seq<System>, steps: seq<Step>, i: nat)
    requires Run(states, steps) && i < |states|
    ensures Writable(states[i].snd.log) && |states[i].snd.log| < WIRE_SEQ_MAX
  {
    if i > 0 {
      LogsAreWritable(states, steps, i - 1);
      assert Next(states[i - 1], steps[i - 1], states[i]);
      if steps[i - 1].StepPut? {
        var log, items := states[i - 1].snd.log, steps[i - 1].items;
        assert (log + items)[|log|..] == items && (log + items)[..|log|] == log;
      }
    }
  }

  /** A fresh sender whose ring memory is `slots` after `log` was put. */
  function Wrote(cap: nat, log: seq<Entry>, slots: seq<Entry>, visible: nat): Sender
  {
    Sender(cap, 0, log, slots, visible, 0, 0, SEQ_MAX, NoBatch, 0, [], [], [], {}, false)
  }

  lemma {:induction false} Writes(cap: nat, blank: Entry, links: map<nat, Link>, log: seq<Entry>) returns (slots: seq<Entry>)
    requires cap > 0 && Reached(System(Initial(cap, 0, blank), links), true) && Writable(log) && |log| <= cap && |log| < WIRE_SEQ_MAX
    ensures Reached(System(Wrote(cap, log, slots, 0), links), true)
    decreases |log|
  {
    if log == [] {
      slots := Initial(cap, 0, blank).slots;
    } else {
      var k: nat :| k < |log| && Puttable(log[k..]) && Writable(log[..k]);
      var before := Writes(cap, blank, links, log[..k]);
      WritesMore(cap, links, log, k, before);
      slots := Fill(before, k, log[k..]);
    }
  }

  lemma WritesMore(cap: nat, links: map<nat, Link>, log: seq<Entry>, k: nat, slots: seq<Entry>)
    requires k <= |log| <= cap && |log| < WIRE_SEQ_MAX && Puttable(log[k..])
    requires Reached(System(Wrote(cap, log[..k], slots, 0), links), true)
    ensures |slots| > 0 && Reached(System(Wrote(cap, log, Fill(slots, k, log[k..]), 0), links), true)
  {
    var y := System(Wrote(cap, log[..k], slots, 0), links);
    ReachedHasInv(y, true);
    assert log[..k] + log[k..] == log;
    TakesStep(y, StepPut(log[k..], 0), System(Wrote(cap, log, Fill(slots, k, log[k..]), 0), links), true);
  }

  lemma {:induction false} Exposes(cap: nat, links: map<nat, Link>, log: seq<Entry>, slots: seq<Entry>, n: nat)
    requires Reached(System(Wrote(cap, log, slots, 0), links), true) && n <= |log|
    ensures Reached(System(Wrote(cap, log, slots, n), links), true)
  {
    if n > 0 {
      Exposes(cap, links, log, slots, n - 1);
      var y := System(Wrote(cap, log, slots, n - 1), links);
      ReachedHasInv(y, true);
      TakesStep(y, StepExpose, System(Wrote(cap, log, slots, n), links), true);
    }
  }

  /** A session has joined, everything is written and visible, nothing is sent. */
  lemma ReadyToSend(cap: nat, blank: Entry, subs: set<Tag>, log: seq<Entry>) returns (slots: seq<Entry>)
    requires cap > 0 && START_TAG in subs && SEG_TAG in subs && Writable(log) && |log| <= cap && |log| < WIRE_SEQ_MAX
    ensures Reached(System(Wrote(cap, log, slots, |log|), map[0 := Joined(subs)]), true)
  {
    Joins(cap, blank, subs);
    slots := Writes(cap, blank, map[0 := Joined(subs)], log);
    Exposes(cap, map[0 := Joined(subs)], log, slots, |log|);
  }

  // ---- everything is lost on the way, and asked for again -------------------------------------

  /** The first `n` entries went out by multicast and got lost, then an alert; the datagrams are in `net`. */
  function Alerted(cap: nat, log: seq<Entry>, slots: seq<Entry>, n: nat, ends: seq<Cleanup>, net: set<seq<UdpItem>>): Sender
  {
    Sender(cap, 0, log, slots, |log|, n, 0, SEQ_MAX, NoBatch, n, ends, [], ends, net, false)
  }

  lemma LosesAndAlerts(cap: nat, links: map<nat, Link>, log: seq<Entry>, slots: seq<Entry>, n: nat)
    returns (ends: seq<Cleanup>, net: set<seq<UdpItem>>)
    requires Reached(System(Wrote(cap, log, slots, |log|), links), true) && 0 < n <= |log|
    ensures Reached(System(Alerted(cap, log, slots, n, ends, net), links), true) && [Alert(n)] in net
  {
    var x := Wrote(cap, log, slots, |log|);
    ReachedHasInv(System(x, links), true);
    ends := TrainEnds(log, 0, n);
    assert [] + ends == ends;
    var x1 := x.(batch := Batch(n, false, false), cleanup := ends, queued := ends, alertSeq := n);
    TakesStep(System(x, links), StepBuild(n, false, false), System(x1, links), true);
    var x2 := Multicast(x1);
    TakesStep(System(x1, links), StepMulticast, System(x2, links), true);
    assert TrainEnds(log, n, n) == [] && ends + [] == ends;
    var x3 := x2.(batch := Batch(0, false, true));
    TakesStep(System(x2, links), StepBuild(0, false, true), System(x3, links), true);
    net := x2.net + {[Alert(n)]};
    assert Datagram(x3) == [Alert(n)];
    TakesStep(System(x3, links), StepMulticast, System(Alerted(cap, log, slots, n, ends, net), links), true);
  }

  /** The session after the alert: it has asked for everything, and the sender has read that. */
  function Asking(subs: set<Tag>, n: nat): Link
    requires n > 0
  {
    Joined(subs).(queue := [Request(0, n)], recv := Joined(subs).recv.(gapPending := true, gapPendingSeq := n - 1))
  }

  lemma AsksForAll(y: System, subs: set<Tag>, n: nat, clear: bool)
    requires Reached(y, clear) && y.links == map[0 := Joined(subs)] && 0 < n < SEQ_MAX && [Alert(n)] in y.snd.net && y.snd.cap > 0
    ensures Reached(Moved(y, Asking(subs, n)), clear)
  {
    ReachedHasInv(y, clear);
    var l := Joined(subs);
    Moves(y, ReceiveDatagram([Alert(n)]), clear);
    var l1 := l.(held := [Alert(n)]);
    Moves(Moved(y, l1), PresentUdp, clear);
    assert [] + [Report(0, n)] == [Report(0, n)] && l1.held[1..] == [];
    var l2 := l.(up := [Report(0, n)], recv := l.recv.(gapPending := true, gapPendingSeq := n - 1));
    assert Present1(l1) == l2;
    Moves(Moved(y, l2), ReadCommand, clear);
    assert l2.up[1..] == [] && [] + [Request(0, n)] == [Request(0, n)];
    assert Command1(y.snd, l2) == Asking(subs, n);
  }
}
