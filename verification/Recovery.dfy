/** What the multicast loses is asked for, and can be got: for every run. */
module Recovery {
  import opened Common
  import opened Messages
  import opened Receiver
  import opened Sender
  import opened Requests
  import opened Invariants
  import opened LinkProofs
  import opened Delivery
  import opened Theorems
  import opened RunBuilding

  // ---- what is presented, and what the receiver makes of it -----------------------------------

  /**
   * How a receiver reacts to an item of the multicast. Before its start sequence, and with a gap report pending, a
   * message must be presented again. Otherwise the expected one is taken, an older one passed over, and a later one
   * must be presented again: everything before it is asked for, in one report. An alert asks for what it announces.
   */
  predicate ReactsTo(r: Recv, item: UdpItem, z: Reaction)
  {
    var e := r.arb.expecting;
    match item
    case Ad => z == Reaction(r, 1, [], 0)
    case Alert(n) =>
      if r.gapPending then z == Reaction(r, 0, [], 0)
      else if e < n then z == Reaction(r.(gapPending := true, gapPendingSeq := n - 1), -1, [Report(e, n - e)], 0)
      else z == Reaction(r, -1, [], 0)
    case Data(s, m) =>
      && z.gap == 0 && z.recv.subs == r.subs && z.recv.minSeq == r.minSeq
      && if e == SEQ_MAX || r.gapPending then
           z.code == 0 && z.sent == [] && z.recv.output == r.output && z.recv.arb.expecting == e && z.recv.gapPending == r.gapPending
         else if s > e then
           && z.code == 0 && z.sent == [Report(e, s - e)] && z.recv.output == r.output && z.recv.arb.expecting == e
           && z.recv.gapPending && z.recv.gapPendingSeq == s - 1
         else if s == e then
           && z.code == 1 && z.sent == [] && z.recv.arb.expecting == e + 1 && !z.recv.gapPending
           && z.recv.output == if UdpPasses(r.subs, m) then r.output + [m] else r.output
         else
           z.code == -1 && z.sent == [] && z.recv.output == r.output && z.recv.arb.expecting == e && !z.recv.gapPending
  }

  lemma Reacts(x: Sender, l: Link, item: UdpItem)
    requires Bounds(x) && RecvInv(x, l) && Known(x, item)
    ensures ReactsTo(l.recv, item, Accept(l.recv, item))
  {
    if item.Data? { NoArbiterGap(x, l, 0, item.s); }
  }

  /** In every run, to whatever the multicast has ever carried. */
  lemma LostIsAskedFor(states: seq<System>, steps: seq<Step>, i: nat, id: nat, d: seq<UdpItem>, k: nat)
    requires Run(states, steps) && i < |states| && id in states[i].links && d in states[i].snd.net && k < |d|
    ensures var r := states[i].links[id].recv; |r.arb.j| == 2 && ReactsTo(r, d[k], Accept(r, d[k]))
  {
    Reachable(states, steps, i);
    assert Known(states[i].snd, d[k]);
    Reacts(states[i].snd, states[i].links[id], d[k]);
  }

  /** In every run: an item that has to be presented again, to a receiver that has its start sequence, is being asked for. */
  lemma RefusedIsPending(states: seq<System>, steps: seq<Step>, i: nat, id: nat)
    requires Run(states, steps) && i < |steps| && steps[i] == StepLink(id, PresentUdp)
    ensures id in states[i].links && id in states[i + 1].links && states[i].links[id].held != []
    ensures var l, l' := states[i].links[id], states[i + 1].links[id];
      && (l'.held == l.held || l'.held == l.held[1..])
      && (l'.held == l.held && l.recv.arb.expecting != SEQ_MAX ==> l'.recv.gapPending)
  {
    Reachable(states, steps, i);
    assert Next(states[i], steps[i], states[i + 1]);
    var x, l := states[i].snd, states[i].links[id];
    assert Known(x, l.held[0]);
    Reacts(x, l, l.held[0]);
  }

  // ---- a stalled reader goes on ---------------------------------------------------------------

  /** No request of this link's receiver, sent or still to be sent, is longer than the ring. */
  ghost predicate CanAsk(x: Sender, l: Link) { AllShort(x, l) && x.rs0 <= Hi(l.recv) + x.cap }

  /** The link is at work: the session is alive and its receiver has the start sequence. */
  ghost predicate AtWork(x: Sender, l: Link)
  {
    LinkInv(x, l) && l.alive && l.recv.arb.expecting != SEQ_MAX && CanAsk(x, l)
  }

  lemma RoomCanAsk(x: Sender, l: Link)
    requires Bounds(x) && LinkInv(x, l) && l.alive && l.recv.arb.expecting != SEQ_MAX && HasRoom(x)
    ensures AtWork(x, l)
  {
    ChainBounds(Progress(l), Outstanding(l), Frontier(l), Hi(l.recv));
    forall k | 0 <= k < |Outstanding(l)| ensures Outstanding(l)[k].len <= x.cap { RefusedIffLong(x, l, k); }
  }

  lemma NearIsShort(x: Sender, l: Link)
    requires LinkInv(x, l) && l.alive && l.recv.arb.expecting != SEQ_MAX && Hi(l.recv) <= l.recv.arb.expecting + x.cap
    ensures AllShort(x, l)
  {
    var q := Outstanding(l);
    forall k | 0 <= k < |q| ensures q[k].len <= x.cap {
      if q[k].len > 0 { ChainLong(Progress(l), q, Frontier(l), Hi(l.recv), k); }
    }
  }

  /** The item is behind the receiver. */
  predicate Past(item: UdpItem, e: nat)
  {
    match item
    case Data(s, _) => s < e
    case Alert(n) => n <= e
    case Ad => true
  }

  lemma PerformsOn(x: Sender, l: Link, ops: seq<LinkOp>, m: Link, more: seq<LinkOp>, l': Link)
    requires Performs(x, l, ops, m) && Performs(x, m, more, l')
    ensures Performs(x, l, ops + more, l')
  {
    LeadsOn(LinkStep(x), l, ops, m, more, l');
  }

  /** Whatever is pending, the two ends settle it. */
  lemma Settles(x: Sender, l: Link) returns (ops: seq<LinkOp>, l': Link)
    requires Bounds(x) && NetInv(x) && AtWork(x, l)
    ensures Performs(x, l, ops, l') && AtWork(x, l') && l'.held == l.held
    ensures !l'.recv.gapPending && l'.recv.arb.expecting == Hi(l.recv)
  {
    if l.recv.gapPending {
      ops, l' := GapCanClose(x, l);
      NearIsShort(x, l');
    } else {
      ops, l' := [], l;
    }
  }

  /** Presenting the next item once nothing is pending. */
  lemma Presents(x: Sender, l: Link) returns (l': Link)
    requires Bounds(x) && NetInv(x) && AtWork(x, l) && l.held != [] && !l.recv.gapPending
    ensures Enabled(x, l, PresentUdp) && l' == Apply(x, l, PresentUdp) && AtWork(x, l')
    ensures if l.held[0].Data? && l.recv.arb.expecting < l.held[0].s then l'.held == l.held && Hi(l'.recv) == l.held[0].s
            else l'.held == l.held[1..] && Past(l.held[0], Hi(l'.recv))
    ensures Hi(l.recv) <= Hi(l'.recv)
  {
    l' := Present1(l);
    assert Known(x, l.held[0]);
    Reacts(x, l, l.held[0]);
    LinkStepKeeps(x, l, PresentUdp);
    NearIsShort(x, l');
  }

  /** The first held item gets decided, and what it needs arrives. */
  lemma Decides(x: Sender, l: Link) returns (ops: seq<LinkOp>, l': Link)
    requires Bounds(x) && NetInv(x) && AtWork(x, l) && l.held != []
    ensures Performs(x, l, ops, l') && AtWork(x, l') && l'.held == l.held[1..]
    ensures !l'.recv.gapPending && l.recv.arb.expecting <= l'.recv.arb.expecting && Past(l.held[0], l'.recv.arb.expecting)
    decreases if l.held[0].Data? && Hi(l.recv) < l.held[0].s then 1 else 0
  {
    var ops1, l1 := Settles(x, l);
    var l2 := Presents(x, l1);
    var ops3, l3;
    if l2.held == l1.held {
      ops3, l3 := Decides(x, l2);
    } else {
      ops3, l3 := Settles(x, l2);
    }
    Prepend(x, l1, PresentUdp, ops3, l3);
    PerformsOn(x, l, ops1, l1, [PresentUdp] + ops3, l3);
    ops, l' := ops1 + ([PresentUdp] + ops3), l3;
  }

  /** And so do all of them. */
  lemma {:induction false} DecidesAll(x: Sender, l: Link) returns (ops: seq<LinkOp>, l': Link)
    requires Bounds(x) && NetInv(x) && AtWork(x, l)
    ensures Performs(x, l, ops, l') && AtWork(x, l') && l'.held == [] && !l'.recv.gapPending
    ensures l.recv.arb.expecting <= l'.recv.arb.expecting
    ensures forall k :: 0 <= k < |l.held| ==> Past(l.held[k], l'.recv.arb.expecting)
    decreases |l.held|
  {
    if l.held == [] {
      ops, l' := Settles(x, l);
    } else {
      var ops1, l1 := Decides(x, l);
      var ops2, l2 := DecidesAll(x, l1);
      PerformsOn(x, l, ops1, l1, ops2, l2);
      ops, l' := ops1 + ops2, l2;
      forall k | 0 <= k < |l.held| ensures Past(l.held[k], l'.recv.arb.expecting) {
        if k > 0 { assert l1.held[k - 1] == l.held[k]; }
      }
    }
  }

  // ---- the whole system goes on ---------------------------------------------------------------

  ghost function SystemStep(): (System, Step, System) -> bool { (y, st, z) => Next(y, st, z) }

  /** The steps lead from `y` to `z`. */
  ghost predicate Continues(y: System, steps: seq<Step>, z: System) { Leads(SystemStep(), y, steps, z) }

  lemma ContinuesOn(y: System, steps: seq<Step>, m: System, more: seq<Step>, z: System)
    requires Continues(y, steps, m) && Continues(m, more, z)
    ensures Continues(y, steps + more, z)
  {
    LeadsOn(SystemStep(), y, steps, m, more, z);
  }

  lemma OneStep(y: System, st: Step, z: System)
    requires Next(y, st, z)
    ensures Continues(y, [st], z)
  {
    LeadsByOne(SystemStep(), y, st, z);
  }

  /** What a link does by itself the system does. */
  lemma {:induction false} LinkContinues(y: System, id: nat, ops: seq<LinkOp>, l': Link) returns (steps: seq<Step>)
    requires Bounds(y.snd) && !y.snd.stopped && id in y.links && Performs(y.snd, y.links[id], ops, l')
    ensures Continues(y, steps, y.(links := y.links[id := l']))
    decreases |ops|
  {
    if ops == [] {
      steps := [];
      assert y.links[id := l'] == y.links;
    } else {
      FirstOp(y.snd, y.links[id], ops, l');
      var m := y.(links := y.links[id := Apply(y.snd, y.links[id], ops[0])]);
      steps := LinkContinues(m, id, ops[1..], l');
      assert m.links[id := l'] == y.links[id := l'];
      LeadsFrom(SystemStep(), y, StepLink(id, ops[0]), m, steps, y.(links := y.links[id := l']));
      steps := [StepLink(id, ops[0])] + steps;
    }
  }

  /** With room the link reads what was put, whatever it does. */
  lemma {:induction false} PerformsKeeps(x: Sender, l: Link, ops: seq<LinkOp>, l': Link)
    requires RingInv(x) && NetInv(x) && HasRoom(x) && LinkInv(x, l) && Performs(x, l, ops, l')
    ensures LinkInv(x, l') && (Contents(x, l) ==> Contents(x, l'))
    decreases |ops|
  {
    if ops != [] {
      FirstOp(x, l, ops, l');
      LinkStepKeeps(x, l, ops[0]);
      RoomReadsRight(x, l, ops[0]);
      if Contents(x, l) { ContentsKept(x, l, ops[0]); }
      PerformsKeeps(x, Apply(x, l, ops[0]), ops[1..], l');
    }
  }

  /** A live session's receiver can get its start sequence. */
  lemma GetsStart(x: Sender, l: Link) returns (ops: seq<LinkOp>, l': Link)
    requires Bounds(x) && NetInv(x) && HasRoom(x) && LinkInv(x, l) && l.alive
    ensures Performs(x, l, ops, l') && AtWork(x, l') && l'.held == l.held
    decreases !l.connected
  {
    if l.recv.arb.expecting != SEQ_MAX {
      ops, l' := [], l;
    } else {
      var op;
      if l.connected {
        op := TakeTcp;
      } else {
        var order := ListOf(l.recv.subs);
        op := Connect(order);
      }
      LinkStepKeeps(x, l, op);
      if l.connected {
        ops, l' := [], TakeTcp1(l);
      } else {
        ops, l' := GetsStart(x, Apply(x, l, op));
      }
      Prepend(x, l, op, ops, l');
      ops := [op] + ops;
    }
    RoomCanAsk(x, l');
  }

  /** The announced sequence covers whatever was multicast. */
  ghost predicate AlertInv(x: Sender)
  {
    && (Picked(x) > 0 ==> x.alertSeq == x.rs0 + Picked(x))
    && forall d: seq<UdpItem>, k :: d in x.net && 0 <= k < |d| ==> Past(d[k], x.alertSeq)
  }

  lemma StepKeepsAlert(y: System, st: Step, z: System)
    requires Inv(y) && AlertInv(y.snd) && Next(y, st, z)
    ensures AlertInv(z.snd)
  {
  }

  lemma AlertCovers(states: seq<System>, steps: seq<Step>, i: nat)
    requires Run(states, steps) && i < |states|
    ensures AlertInv(states[i].snd)
  {
    var good := (y: System) => AlertInv(y.snd);
    forall j, k | 0 <= j && j + 1 == k < |states| && good(states[j]) ensures good(states[k]) {
      Reachable(states, steps, j);
      StepKeepsAlert(states[j], steps[j], states[k]);
    }
    Induct(states, good, i);
  }

  /** The multicast sends what it has picked, and then an alert. */
  lemma Alerts(y: System) returns (steps: seq<Step>, z: System)
    requires Inv(y) && AlertInv(y.snd) && !y.snd.stopped
    ensures Continues(y, steps, z) && Inv(z) && AlertInv(z.snd) && z.links == y.links && !z.snd.stopped
    ensures z.snd.log == y.snd.log && z.snd.rs1 == y.snd.rs1 && z.snd.cap == y.snd.cap && y.snd.net <= z.snd.net
    ensures [Alert(z.snd.alertSeq)] in z.snd.net
    decreases y.snd.batch.Batch?
  {
    var x := y.snd;
    if x.batch.Batch? {
      var m := y.(snd := Multicast(x));
      StepKeeps(y, StepMulticast, m);
      StepKeepsAlert(y, StepMulticast, m);
      steps, z := Alerts(m);
      LeadsFrom(SystemStep(), y, StepMulticast, m, steps, z);
      steps := [StepMulticast] + steps;
    } else {
      var m := y.(snd := Build(x, 0, false, true));
      StepKeeps(y, StepBuild(0, false, true), m);
      StepKeepsAlert(y, StepBuild(0, false, true), m);
      assert Datagram(m.snd) == [Alert(x.alertSeq)];
      z := y.(snd := Multicast(m.snd));
      StepKeeps(m, StepMulticast, z);
      StepKeepsAlert(m, StepMulticast, z);
      OneStep(m, StepMulticast, z);
      LeadsFrom(SystemStep(), y, StepBuild(0, false, true), m, [StepMulticast], z);
      steps := [StepBuild(0, false, true)] + [StepMulticast];
    }
  }

  /** The datagram is presented, and whatever it shows to be missing is got. */
  lemma HearsAlert(x: Sender, l: Link, n: nat) returns (ops: seq<LinkOp>, l': Link)
    requires Bounds(x) && NetInv(x) && AtWork(x, l) && l.held == [] && [Alert(n)] in x.net
    ensures Performs(x, l, ops, l') && AtWork(x, l') && n <= l'.recv.arb.expecting
  {
    var d := [Alert(n)];
    LinkStepKeeps(x, l, ReceiveDatagram(d));
    var l1 := l.(held := d);
    assert Outstanding(l1) == Outstanding(l);
    ops, l' := DecidesAll(x, l1);
    assert Past(l1.held[0], l'.recv.arb.expecting);
    Prepend(x, l, ReceiveDatagram(d), ops, l');
    ops := [ReceiveDatagram(d)] + ops;
  }

  /** What a link does by itself, for the system: with room it keeps all there is to keep. */
  lemma LinkMoves(y: System, id: nat, ops: seq<LinkOp>, l': Link) returns (steps: seq<Step>, z: System)
    requires Inv(y) && HasRoom(y.snd) && !y.snd.stopped && id in y.links && Performs(y.snd, y.links[id], ops, l')
    ensures Continues(y, steps, z) && z == y.(links := y.links[id := l']) && Inv(z)
    ensures Contents(y.snd, y.links[id]) ==> Contents(z.snd, l')
  {
    z := y.(links := y.links[id := l']);
    PerformsKeeps(y.snd, y.links[id], ops, l');
    steps := LinkContinues(y, id, ops, l');
  }

  /** Everything the multicast has carried is behind the link's receiver. */
  ghost predicate HasAll(x: Sender, l: Link)
  {
    l.recv.arb.expecting != SEQ_MAX && forall d: seq<UdpItem>, k :: d in x.net && 0 <= k < |d| ==> Past(d[k], l.recv.arb.expecting)
  }

  /** The link gets rid of what it holds, and of what it waits for. */
  lemma GetsQuiet(y: System, id: nat) returns (steps: seq<Step>, z: System)
    requires Inv(y) && HasRoom(y.snd) && !y.snd.stopped && id in y.links && y.links[id].alive
    ensures Continues(y, steps, z) && Inv(z) && z.snd == y.snd && id in z.links && AtWork(z.snd, z.links[id]) && z.links[id].held == []
    ensures Contents(y.snd, y.links[id]) ==> Contents(z.snd, z.links[id])
  {
    var ops1, l1 := GetsStart(y.snd, y.links[id]);
    var ops2, l2 := DecidesAll(y.snd, l1);
    PerformsOn(y.snd, y.links[id], ops1, l1, ops2, l2);
    steps, z := LinkMoves(y, id, ops1 + ops2, l2);
  }

  /** It hears of everything multicast, and gets it. */
  lemma GetsAll(y: System, id: nat) returns (steps: seq<Step>, z: System)
    requires Inv(y) && AlertInv(y.snd) && HasRoom(y.snd) && !y.snd.stopped && id in y.links
    requires AtWork(y.snd, y.links[id]) && y.links[id].held == [] && [Alert(y.snd.alertSeq)] in y.snd.net
    ensures Continues(y, steps, z) && Inv(z) && z.snd == y.snd && id in z.links && HasAll(z.snd, z.links[id])
    ensures Contents(y.snd, y.links[id]) ==> Contents(z.snd, z.links[id])
  {
    var ops, l := HearsAlert(y.snd, y.links[id], y.snd.alertSeq);
    steps, z := LinkMoves(y, id, ops, l);
  }

  lemma AllArrives(y: System, id: nat) returns (steps: seq<Step>, z: System)
    requires Inv(y) && AlertInv(y.snd) && HasRoom(y.snd) && !y.snd.stopped && id in y.links && y.links[id].alive
    ensures Continues(y, steps, z) && Inv(z) && z.snd.log == y.snd.log && y.snd.net <= z.snd.net
    ensures id in z.links && HasAll(z.snd, z.links[id])
    ensures Contents(y.snd, y.links[id]) ==> Contents(z.snd, z.links[id])
  {
    var steps1, y1 := GetsQuiet(y, id);
    var steps2, y2 := Alerts(y1);
    StillAtWork(y1, y2, id);
    var steps3;
    steps3, z := GetsAll(y2, id);
    ContinuesOn(y, steps1, y1, steps2, y2);
    ContinuesOn(y, steps1 + steps2, y2, steps3, z);
    steps := steps1 + steps2 + steps3;
  }

  lemma StillAtWork(y: System, z: System, id: nat)
    requires Inv(y) && Inv(z) && id in y.links && z.links == y.links && AtWork(y.snd, y.links[id]) && HasRoom(y.snd)
    requires z.snd.log == y.snd.log && z.snd.rs1 == y.snd.rs1 && z.snd.cap == y.snd.cap
    ensures AtWork(z.snd, z.links[id]) && HasRoom(z.snd) && (Contents(y.snd, y.links[id]) ==> Contents(z.snd, z.links[id]))
  {
    RoomCanAsk(z.snd, z.links[id]);
    assert z.snd.log[..|y.snd.log|] == y.snd.log;
    if Contents(y.snd, y.links[id]) { GrowsKeepsContents(y.snd, z.snd, y.links[id]); }
  }

  /**
   * Nothing is lost for good. From any moment of any run before the stop, while the log is no further than a ring ahead
   * of the backup cursor: whatever datagrams were lost, held back, repeated or reordered, and wherever requests and
   * answers are, steps of the two ends lead to where a live session's receiver is past everything the multicast has ever
   * carried; and if sessions read what was put so far, its output is right.
   */
  lemma NothingIsLostForGood(states: seq<System>, steps: seq<Step>, i: nat, id: nat) returns (more: seq<Step>, z: System)
    requires Run(states, steps) && i < |states| && id in states[i].links && states[i].links[id].alive
    requires !states[i].snd.stopped && HasRoom(states[i].snd)
    ensures Continues(states[i], more, z) && z.snd.log == states[i].snd.log && states[i].snd.net <= z.snd.net
    ensures id in z.links && HasAll(z.snd, z.links[id])
    ensures FaithfulRun(states, steps) ==> OutputRight(z.links[id].recv, z.snd.log)
  {
    Reachable(states, steps, i);
    AlertCovers(states, steps, i);
    more, z := AllArrives(states[i], id);
    if FaithfulRun(states, steps) {
      FaithfulReachable(states, steps, i);
      ContentsAreOutput(z.snd, z.links[id]);
    }
  }

  // ---- progress is reported, and moves the backup cursor --------------------------------------

  /** With nothing pending, all that is asked for is progress reports. */
  lemma QuietLink(x: Sender, l: Link)
    requires LinkInv(x, l) && l.alive && l.recv.arb.expecting != SEQ_MAX && !l.recv.gapPending
    ensures l.relic == NoRelic && l.down == [] && forall k :: 0 <= k < |Outstanding(l)| ==> Outstanding(l)[k].len == 0
  {
    var q := Outstanding(l);
    ChainBounds(Progress(l), q, Frontier(l), Hi(l.recv));
    forall k | 0 <= k < |q| ensures q[k].len == 0 {
      if q[k].len > 0 { ChainLong(Progress(l), q, Frontier(l), Hi(l.recv), k); }
    }
  }

  /** The progress the sender has been told of, once it has read and served all there is. */
  function ToldOf(l: Link): nat
  {
    var q := Outstanding(l); if q == [] then l.bufItNext else q[|q| - 1].s
  }

  lemma {:induction false} ReportsAreServed(x: Sender, l: Link) returns (ops: seq<LinkOp>, l': Link)
    requires Bounds(x) && NetInv(x) && LinkInv(x, l) && l.alive && l.recv.arb.expecting != SEQ_MAX && !l.recv.gapPending
    ensures Performs(x, l, ops, l') && LinkInv(x, l') && l'.alive && l'.recv == l.recv && l'.bufItNext == ToldOf(l)
    decreases |l.up|, |l.queue|
  {
    if l.queue == [] && l.up == [] {
      ops, l' := [], l;
    } else {
      QuietLink(x, l);
      var op, q := if l.queue != [] then Serve(0, 0) else ReadCommand, Outstanding(l);
      LinkStepKeeps(x, l, op);
      if l.queue != [] {
        RequestIsGood(x, l);
        assert q[0] == l.queue[0] && q[1..] == Outstanding(Apply(x, l, op));
      } else {
        ReadOutstanding(x, l);
      }
      assert ToldOf(Apply(x, l, op)) == ToldOf(l);
      ops, l' := ReportsAreServed(x, Apply(x, l, op));
      Prepend(x, l, op, ops, l');
      ops := [op] + ops;
    }
  }

  /** A tick reports how far the receiver has got, unless a gap report is pending; served, it is the session's progress. */
  lemma TickIsServed(x: Sender, l: Link) returns (ops: seq<LinkOp>, l': Link)
    requires Bounds(x) && NetInv(x) && LinkInv(x, l) && l.alive && l.recv.arb.expecting != SEQ_MAX && !l.recv.gapPending
    ensures Tick(l.recv) == (l.recv, [Report(l.recv.arb.expecting, 0)])
    ensures Performs(x, l, [TimerTick] + ops, l') && LinkInv(x, l') && l'.alive && l'.recv == l.recv
    ensures l'.bufItNext == l.recv.arb.expecting
  {
    var e := l.recv.arb.expecting;
    var l1, more := Apply(x, l, TimerTick), [Report(e, 0)];
    LinkStepKeeps(x, l, TimerTick);
    ReportsOfConcat(l.up, more);
    assert more[1..] == [] && Reports(more) == [Request(e, 0)] + Reports([]);
    assert Outstanding(l1)[|Outstanding(l1)| - 1] == Request(e, 0);
    ops, l' := ReportsAreServed(x, l1);
    Prepend(x, l, TimerTick, ops, l');
  }

  /**
   * So the backup cursor follows the receivers. From any moment of any run before the stop: a live session with nothing
   * pending can bring its progress to what its receiver expects; and if no other live session is further behind, the
   * next retention turn moves the backup cursor up to that, less the history to replay.
   */
  lemma ProgressMovesTheCursor(states: seq<System>, steps: seq<Step>, i: nat, id: nat) returns (more: seq<Step>, m: System)
    requires Run(states, steps) && i < |states| && !states[i].snd.stopped && id in states[i].links
    requires var l := states[i].links[id]; l.alive && l.recv.arb.expecting != SEQ_MAX && !l.recv.gapPending
    ensures Continues(states[i], more, m) && m.snd == states[i].snd && id in m.links && m.links[id].alive
    ensures var e := states[i].links[id].recv.arb.expecting;
      && m.links[id].bufItNext == e
      && ((forall k :: k in m.links && m.links[k].alive ==> e <= m.links[k].bufItNext) ==>
           && Next(m, StepRetain(e), m.(snd := Retain(m.snd, e)))
           && Retain(m.snd, e).rs1 == MovedUp(m.snd.rs1, m.snd.replay, e))
  {
    Reachable(states, steps, i);
    var y, e := states[i], states[i].links[id].recv.arb.expecting;
    var ops, l := TickIsServed(y.snd, y.links[id]);
    m := y.(links := y.links[id := l]);
    more := LinkContinues(y, id, [TimerTick] + ops, l);
    assert m.links[id] == l;
    if forall k :: k in m.links && m.links[k].alive ==> e <= m.links[k].bufItNext {
      assert IsLeast(m.snd, m.links, e);
      RetainMoves(m, e, m.(snd := Retain(m.snd, e)));
    }
  }

  // ---- subscriptions are announced ------------------------------------------------------------

  /** Reading what is under way, the sender learns every subscription in it, and that it is complete. */
  lemma {:induction false} ReadsAll(x: Sender, l: Link) returns (ops: seq<LinkOp>, l': Link)
    requires |l.recv.arb.j| == 2 && |x.slots| > 0 && l.alive
    ensures Performs(x, l, ops, l') && l'.up == [] && l'.alive && l'.recv == l.recv
    ensures l.clientSubs <= l'.clientSubs && (l.ready || AllSent in l.up ==> l'.ready)
    ensures forall t :: Subscribe(t) in l.up ==> t in l'.clientSubs
    decreases |l.up|
  {
    if l.up == [] {
      ops, l' := [], l;
    } else {
      var m := Command1(x, l);
      ops, l' := ReadsAll(x, m);
      Prepend(x, l, ReadCommand, ops, l');
      ops := [ReadCommand] + ops;
      forall t | Subscribe(t) in l.up ensures t in l'.clientSubs {
        if l.up[0] != Subscribe(t) { assert Subscribe(t) in m.up; }
      }
    }
  }

  /** Announcing them again leaves no subscription out. */
  lemma RefreshAnnounces(x: Sender, l: Link, order: seq<Tag>) returns (ops: seq<LinkOp>, l': Link)
    requires l.alive && Enabled(x, l, Refresh(order))
    ensures Performs(x, l, [Refresh(order)] + ops, l') && l'.up == [] && l.recv.subs <= l'.clientSubs && l'.ready
  {
    var m, c := Apply(x, l, Refresh(order)), Subscriptions(order);
    ops, l' := ReadsAll(x, m);
    Prepend(x, l, Refresh(order), ops, l');
    assert c[|order|] == AllSent && m.up[|l.up| + |order|] == AllSent;
    forall t | t in l.recv.subs ensures t in l'.clientSubs {
      var i :| 0 <= i < |order| && order[i] == t;
      assert c[i] == Subscribe(t) && m.up[|l.up| + i] == Subscribe(t);
    }
  }
}
