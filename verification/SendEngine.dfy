/** The sending engine's turn: hmbdc/tips/rmcast/SendTransportEngine.hpp, lines 179-195 and 410-417. */
module SendEngine {
  import opened Common
  import opened Messages
  import opened Receiver
  import opened Sender
  import opened Invariants
  import opened Theorems
  import opened RunBuilding
  import opened SendServer
  import opened SendTransport
  import opened CleanupQueues
  import opened SendBytes
  import S = SendPath
  import C = Commands

  /** The multicast may read every entry it has not sent. */
  lemma InvIsFaithful(x: Sender)
    requires RingInv(x) && BatchInv(x)
    ensures Faithful(x) && (x.batch.Batch? ==> x.rs0 + x.batch.waste <= x.visible)
  {
    forall s | x.rs0 <= s < x.visible ensures x.slots[s % |x.slots|] == x.log[s] { assert s < |x.log| <= s + x.cap; }
  }

  class SendTransportEngine {
    const server: AsyncBackupSendServer
    const mc: McSendTransport
    const queue: CleanupQueue
    var minRecvToStart: nat

    /** Both halves share the queue. */
    ghost predicate Valid() { server.queue == mc.queue == queue }

    /** Both are at the protocol's state `x`. */
    ghost predicate Matches(x: Sender)
      reads server, mc, server.queue, mc.queue
    {
      server.Matches(x) && mc.Matches(x)
    }

    constructor (replayHistory: nat, batch: nat, startAt: nat, slots: nat, blank: Entry)
      requires slots > 0
      ensures Valid() && fresh(server) && fresh(mc) && fresh(queue) && Matches(Initial(slots, replayHistory, blank))
      ensures minRecvToStart == startAt && !mc.startSending && mc.sent == []
    {
      var q := new CleanupQueue();
      var s := new AsyncBackupSendServer(replayHistory, q);
      var m := new McSendTransport(batch, q);
      server, mc, queue, minRecvToStart := s, m, q, startAt;
    }

    /** The backup server's turn is the protocol's retention. */
    method RunServer(turns: seq<Turn>, readSeq0: nat, ghost y: System, ghost clear: bool) returns (ghost z: System)
      requires Valid() && Matches(y.snd) && GetsTo(y, clear) && !y.snd.stopped && TurnsOf(turns, y.links) && readSeq0 == y.snd.rs0
      modifies server`sessions, server`leastIt, server`readSeq1, server`released, queue
      ensures GetsTo(z, clear) && Matches(z.snd) && server.sessions == GoOn(turns)
      ensures z == y.(snd := Retain(y.snd, Least(y.snd.rs0, turns)))
      ensures server.readSeq1 == MovedUp(old(server.readSeq1), server.replay, Least(readSeq0, turns))
    {
      ReachedHasInv(y, clear);
      server.RunOnce(turns, readSeq0, y.snd);
      RetainIsNext(y, turns);
      z := y.(snd := Retain(y.snd, Least(readSeq0, turns)));
      GoesOn(y, StepRetain(Least(y.snd.rs0, turns)), z, clear);
    }

    /** Sending has not started; or, looking at the ring from some place on, after `n` datagrams, there was nothing to send. */
    ghost predicate NothingLeft(readSeq0: nat, visible: nat, allowed: seq<nat>, n: nat)
      reads mc, server
    {
      !mc.startSending || exists from: nat ::
        readSeq0 <= from <= mc.readSeq0 && mc.NothingToPick(from, visible, |server.sessions|, mc.Allowed(allowed, n))
    }

    /** The multicast's turn is steps of the protocol; without sessions it throws entries away. */
    method RunMulticast(slots: seq<Entry>, visible: nat, allowed: seq<nat>, kernel: seq<bool>, ghost y: System, ghost clear: bool)
      returns (ghost z: System, ghost ds: seq<seq<UdpItem>>)
      requires Valid() && Matches(y.snd) && GetsTo(y, clear) && !y.snd.stopped && slots == y.snd.slots && visible == y.snd.visible
      requires server.sessions == [] ==> forall id :: id in y.links ==> !y.links[id].alive
      modifies mc, queue
      ensures GetsTo(z, clear) && Matches(z.snd) && z.links == y.links && SameRest(y.snd, z.snd)
      ensures mc.sent == old(mc.sent) + ds && (forall d :: d in ds ==> d in z.snd.net) && mc.startSending == old(mc.startSending)
      ensures |ds| <= |kernel| && (forall i :: 0 <= i < |ds| ==> kernel[i]) && old(mc.readSeq0) <= mc.readSeq0
      ensures mc.toSend != [] ==> |ds| == |kernel| || !kernel[|ds|]
      ensures mc.toSend == [] ==> NothingLeft(old(mc.readSeq0), visible, allowed, |ds|)
      ensures mc.toSend == [] ==> !mc.adPending && !mc.seqAlertPending
      ensures old(mc.adPending) && old(mc.adCount) > 0 ==> mc.adPending || Advertises(mc.toSend, ds)
      ensures old(mc.seqAlertPending) ==> mc.seqAlertPending || Announces(mc.toSend, ds)
    {
      ReachedHasInv(y, clear);
      InvIsFaithful(y.snd);
      ghost var x, sts;
      ds, x, sts := mc.ResumeSend(slots, visible, |server.sessions|, allowed, kernel, y.snd);
      GoesKeepsRest(y.snd, sts, x, |server.sessions|);
      GoesIsReached(y, sts, x, |server.sessions|, clear);
      z := y.(snd := x);
    }

    /**
     * One turn, after the sessions had theirs: retention, then the multicast. `readyCount` sessions have announced all
     * their subscriptions. From a state of a run of the protocol it leads to a state of a run, by the protocol's steps.
     * The datagrams `ds` go out, until the socket takes no more or there is nothing left to send.
     */
    method RunOnce(turns: seq<Turn>, readyCount: nat, slots: seq<Entry>, visible: nat, allowed: seq<nat>, kernel: seq<bool>,
                   ghost y: System, ghost clear: bool)
      returns (ghost z: System, ghost ds: seq<seq<UdpItem>>)
      requires Valid() && Matches(y.snd) && GetsTo(y, clear) && !y.snd.stopped
      requires TurnsOf(turns, y.links) && slots == y.snd.slots && visible == y.snd.visible
      modifies this`minRecvToStart, server`sessions, server`leastIt, server`readSeq1, server`released, mc, queue
      ensures GetsTo(z, clear) && Matches(z.snd) && z.links == y.links
      ensures SameRest(Retain(y.snd, Least(y.snd.rs0, turns)), z.snd) && server.sessions == GoOn(turns)
      ensures server.readSeq1 == MovedUp(old(server.readSeq1), server.replay, Least(y.snd.rs0, turns))
      ensures mc.sent == old(mc.sent) + ds && forall d :: d in ds ==> d in z.snd.net
      ensures |ds| <= |kernel| && (forall i :: 0 <= i < |ds| ==> kernel[i]) && (mc.toSend != [] ==> |ds| == |kernel| || !kernel[|ds|])
      ensures mc.toSend == [] ==> NothingLeft(old(mc.readSeq0), visible, allowed, |ds|) && !mc.adPending && !mc.seqAlertPending
      ensures old(mc.adPending) && old(mc.adCount) > 0 ==> mc.adPending || Advertises(mc.toSend, ds)
      ensures old(mc.seqAlertPending) ==> mc.seqAlertPending || Announces(mc.toSend, ds)
      ensures mc.startSending == (old(mc.startSending) || (old(minRecvToStart) != SEQ_MAX && readyCount >= old(minRecvToStart)))
    {
      if minRecvToStart != SEQ_MAX && readyCount >= minRecvToStart {
        minRecvToStart := SEQ_MAX;
        mc.StartSend();
      }
      ghost var y1 := RunServer(turns, mc.readSeq0, y, clear);
      NobodyIsLive(y1.links, turns);
      z, ds := RunMulticast(slots, visible, allowed, kernel, y1, clear);
    }

    /** The end. */
    method Stop(ghost y: System, ghost clear: bool) returns (ghost z: System)
      requires Valid() && Matches(y.snd) && GetsTo(y, clear) && !y.snd.stopped
      modifies server`released, queue
      ensures GetsTo(z, clear) && Matches(z.snd) && z.snd.stopped && server.released == z.snd.queued == y.snd.queued
    {
      ReachedHasInv(y, clear);
      server.Stop(y.snd);
      z := y.(snd := Halt(y.snd));
      GoesOn(y, StepStop, z, clear);
      ReachedHasInv(z, clear);
    }
  }

  // ---- the sessions' turns --------------------------------------------------------------------

  /** What a session does by itself are steps of the protocol. */
  lemma {:induction false} PerformsIsReached(y: System, id: nat, ops: seq<LinkOp>, l': Link, clear: bool)
    requires GetsTo(y, clear) && !y.snd.stopped && id in y.links && Performs(y.snd, y.links[id], ops, l')
    ensures GetsTo(y.(links := y.links[id := l']), clear)
    decreases |ops|
  {
    if ops == [] {
      assert y.links[id := l'] == y.links;
    } else {
      FirstOp(y.snd, y.links[id], ops, l');
      ReachedHasInv(y, clear);
      var z := y.(links := y.links[id := Apply(y.snd, y.links[id], ops[0])]);
      GoesOn(y, StepLink(id, ops[0]), z, clear);
      PerformsIsReached(z, id, ops[1..], l', clear);
      assert z.links[id := l'] == y.links[id := l'];
    }
  }

  /** The server drops a session whose turn failed: that is a step of the protocol. */
  lemma DroppedIsReached(y: System, id: nat, clear: bool)
    requires GetsTo(y, clear) && !y.snd.stopped && id in y.links && y.links[id].alive
    ensures GetsTo(y.(links := y.links[id := y.links[id].(alive := false)]), clear)
  {
    ReachedHasInv(y, clear);
    assert LinkInv(y.snd, y.links[id]);
    var l, l' := y.links[id], y.links[id].(alive := false);
    assert Enabled(y.snd, l, Drop) && Apply(y.snd, l, Drop) == l';
    Prepend(y.snd, l, Drop, [], l');
    PerformsIsReached(y, id, [Drop] + [], l', clear);
  }

  /**
   * The turn of a session object at a link of a state of a run leads to a state of a run, and the object is at its link:
   * whatever it read of the commands the receiver has under way, and whatever the kernel took.
   */
  lemma SessionTurnIsReached(y: System, id: nat, slots: seq<Slot>, cap: nat, readSeq: nat, flag: byte, d: S.Desk, text: string, offered: string,
                             got: string, heard: Ear, ds: seq<S.Desk>, d': S.Desk, text': string, clear: bool)
    returns (l': Link)
    requires GetsTo(y, clear) && !y.snd.stopped && id in y.links && S.SameRing(y.snd, slots, cap, readSeq)
    requires S.Tracks(slots, flag, d, y.links[id]) && text + offered <= C.EncodeAll(y.links[id].up) && got <= offered
    requires S.Turn(slots, flag, cap, readSeq, d, text, got, heard, ds, d', text')
    ensures GetsTo(y.(links := y.links[id := l']), clear) && S.Advances(slots, flag, d, y.links[id], d', l') && S.Hearing(l', text')
  {
    ReachedHasInv(y, clear);
    S.InvariantHears(y.snd, y.links[id], text + offered);
    var ops;
    ops, l' := S.TurnIsSteps(y.snd, slots, cap, readSeq, flag, d, y.links[id], text, offered, got, heard, ds, d', text');
    PerformsIsReached(y, id, ops, l', clear);
  }
}
