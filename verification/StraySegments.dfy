/**
 * Segments of trains a receiver did not subscribe to: which path a segment takes decides whether it is output,
 * hmbdc/tips/reliable/BackupRecvSessionT.hpp, lines 140-155, against BackupSendSessionT.hpp, lines 154-177.
 */
module StraySegments {
  import opened Common
  import opened Messages
  import opened Receiver
  import opened Sender
  import opened LinkProofs
  import opened Delivery
  import opened Theorems
  import opened RunBuilding

  /** What the multicast filter lets pass. */
  function Passed(es: seq<Entry>, subs: set<Tag>): seq<Msg>
  {
    if es == [] then []
    else
      var last := es[|es| - 1];
      Passed(es[..|es| - 1], subs) + (if UdpPasses(subs, last.msg) then [last.msg] else [])
  }

  predicate HasStray(es: seq<Entry>, subs: set<Tag>) { exists s :: 0 <= s < |es| && Stray(subs, es[s]) }

  /** The two differ exactly if there is a stray. */
  lemma {:induction false} PassedOrSubscribed(es: seq<Entry>, subs: set<Tag>)
    requires START_TAG in subs && SEG_TAG in subs
    ensures |Passed(es, subs)| >= |Subscribed(es, subs)|
    ensures |Passed(es, subs)| == |Subscribed(es, subs)| <==> !HasStray(es, subs)
    ensures Passed(es, subs) == Subscribed(es, subs) <==> !HasStray(es, subs)
    decreases |es|
  {
    if es != [] {
      var last, init := es[|es| - 1], es[..|es| - 1];
      PassedOrSubscribed(init, subs);
      if HasStray(init, subs) {
        var s :| 0 <= s < |init| && Stray(subs, init[s]);
        assert es[s] == init[s];
      } else {
        forall s | 0 <= s < |init| ensures !Stray(subs, es[s]) { assert es[s] == init[s]; }
      }
    }
  }

  /** The entries so far, and one more. */
  lemma OneMorePassed(log: seq<Entry>, s: nat, subs: set<Tag>)
    requires s < |log|
    ensures Passed(log[..s + 1], subs) == Passed(log[..s], subs) + (if UdpPasses(subs, log[s].msg) then [log[s].msg] else [])
    ensures Subscribed(log[..s + 1], subs) == Subscribed(log[..s], subs) + (if AskedFor(log[s]) in subs then [log[s].msg] else [])
  {
    assert log[..s + 1][..s] == log[..s];
  }

  // ---- everything by multicast ----------------------------------------------------------------

  /** `l` has heard the first `s` entries by multicast, and nothing else. */
  ghost predicate Heard(l: Link, log: seq<Entry>, s: nat, subs: set<Tag>)
    requires s <= |log|
  {
    && |l.recv.arb.j| == 2 && !l.recv.gapPending && l.recv.minSeq == 0 && l.recv.arb.expecting == s && l.recv.subs == subs
    && l.held == [] && l.recv.output == Passed(log[..s], subs)
  }

  /** The next entry is sent on its own, arrives and is output, if the filter lets it. */
  lemma SendsOne(y: System, s: nat, subs: set<Tag>) returns (z: System)
    requires Reached(y, true) && 0 in y.links && y.links == map[0 := y.links[0]]
    requires s == y.snd.rs0 < y.snd.visible && y.snd.batch == NoBatch && s < |y.snd.log| && Heard(y.links[0], y.snd.log, s, subs)
    ensures Reached(z, true) && 0 in z.links && z.links == map[0 := z.links[0]]
    ensures z.snd.log == y.snd.log && z.snd.visible == y.snd.visible && z.snd.rs0 == s + 1 && z.snd.batch == NoBatch
    ensures Heard(z.links[0], z.snd.log, s + 1, subs)
  {
    ReachedHasInv(y, true);
    var x, l := y.snd, y.links[0];
    var x1 := Build(x, 1, false, false);
    TakesStep(y, StepBuild(1, false, false), System(x1, y.links), true);
    var x2, d := Multicast(x1), Datagram(x1);
    TakesStep(System(x1, y.links), StepMulticast, System(x2, y.links), true);
    assert d == [Data(s, x.log[s].msg)];
    var y2 := System(x2, y.links);
    Moves(y2, ReceiveDatagram(d), true);
    var l1 := l.(held := d);
    HitValue(l1);
    Moves(Moved(y2, l1), PresentUdp, true);
    z := Moved(y2, Present1(l1));
    OneMorePassed(x.log, s, subs);
    assert d[1..] == [];
  }

  lemma {:induction false} SendsAll(y: System, s: nat, subs: set<Tag>) returns (z: System)
    requires Reached(y, true) && 0 in y.links && y.links == map[0 := y.links[0]]
    requires s == y.snd.rs0 <= y.snd.visible == |y.snd.log| && y.snd.batch == NoBatch && Heard(y.links[0], y.snd.log, s, subs)
    ensures Reached(z, true) && 0 in z.links && z.snd.log == y.snd.log && Heard(z.links[0], z.snd.log, |z.snd.log|, subs)
    decreases |y.snd.log| - s
  {
    z := y;
    if s < |y.snd.log| {
      z := SendsOne(y, s, subs);
      z := SendsAll(z, s + 1, subs);
    }
  }

  // ---- everything over the backup connection --------------------------------------------------

  /** `l` has taken the first `s` of `n` frames, and nothing else. */
  ghost predicate Took(l: Link, log: seq<Entry>, s: nat, n: nat, subs: set<Tag>)
    requires s <= n <= |log|
  {
    && l.connected && |l.recv.arb.j| == 2 && l.recv.minSeq == 0 && l.recv.arb.expecting == s && l.recv.subs == subs
    && l.recv.output == Subscribed(log[..s], subs)
    && |l.down| == n - s && forall k :: 0 <= k < n - s ==> l.down[k] == FrameOf(subs, log[s + k])
  }

  lemma TakesOne(y: System, s: nat, n: nat, subs: set<Tag>)
    requires Reached(y, true) && 0 in y.links && y.links == map[0 := y.links[0]] && START_TAG in subs && SEG_TAG in subs
    requires s < n <= |y.snd.log| < WIRE_SEQ_MAX && Took(y.links[0], y.snd.log, s, n, subs)
    ensures var z := Moved(y, TakeTcp1(y.links[0])); Reached(z, true) && Took(z.links[0], z.snd.log, s + 1, n, subs)
  {
    ReachedHasInv(y, true);
    var l := y.links[0];
    var l' := TakeTcp1(l);
    Moves(y, TakeTcp, true);
    assert l.down[0] == FrameOf(subs, y.snd.log[s + 0]);
    PunchValue(l);
    OneMorePassed(y.snd.log, s, subs);
    forall k | 0 <= k < n - (s + 1) ensures l'.down[k] == FrameOf(subs, y.snd.log[s + 1 + k]) {
      assert l'.down[k] == l.down[k + 1] && l.down[k + 1] == FrameOf(subs, y.snd.log[s + (k + 1)]);
    }
  }

  lemma {:induction false} TakesAll(y: System, s: nat, n: nat, subs: set<Tag>) returns (z: System)
    requires Reached(y, true) && 0 in y.links && y.links == map[0 := y.links[0]] && START_TAG in subs && SEG_TAG in subs
    requires s <= n <= |y.snd.log| < WIRE_SEQ_MAX && Took(y.links[0], y.snd.log, s, n, subs)
    ensures Reached(z, true) && 0 in z.links && z.snd == y.snd && Took(z.links[0], z.snd.log, n, n, subs)
    decreases n - s
  {
    z := y;
    if s < n {
      TakesOne(y, s, n, subs);
      z := TakesAll(Moved(y, TakeTcp1(y.links[0])), s + 1, n, subs);
    }
  }

  /** The request for everything is served in one batch, which the kernel takes. */
  lemma ServesAll(y: System, subs: set<Tag>, n: nat)
    requires 0 < n <= y.snd.rs0 && y.snd.rs1 == 0 && n <= |y.snd.log| <= y.snd.cap
    requires Reached(y, true) && y.links == map[0 := Asking(subs, n)]
    ensures |y.snd.slots| > 0
    ensures var z := Moved(y, Serve1(y.snd, Asking(subs, n), n, n)); Reached(z, true) && Took(z.links[0], z.snd.log, 0, n, subs)
  {
    ReachedHasInv(y, true);
    var x, l := y.snd, Asking(subs, n);
    Moves(y, Serve(n, n), true);
    var l' := Serve1(x, l, n, n);
    assert x.log[..0] == [];
    forall k | 0 <= k < n ensures l'.down[k] == FrameOf(subs, x.log[0 + k]) {
      assert x.slots[k % |x.slots|] == x.log[k];
    }
  }

  // ---- results --------------------------------------------------------------------------------

  /** In `y` a session has got everything in the log, from the first entry on, and output `out`. */
  ghost predicate GotAll(y: System, log: seq<Entry>, subs: set<Tag>, out: seq<Msg>)
  {
    && Reached(y, true) && y.snd.log == log && 0 in y.links
    && var r := y.links[0].recv;
       r.subs == subs && r.minSeq == 0 && r.arb.expecting == |log| && r.output == out
  }

  /**
   * For every log producers can write and every subscription set there are two runs over this log: in one everything
   * arrives by multicast, in the other over the backup connection. Their outputs differ exactly if the log has a stray.
   */
  lemma PathsDiffer(log: seq<Entry>, subs: set<Tag>) returns (y: System, z: System)
    requires Writable(log) && 0 < |log| < WIRE_SEQ_MAX && START_TAG in subs && SEG_TAG in subs
    ensures GotAll(y, log, subs, Passed(log, subs)) && GotAll(z, log, subs, Subscribed(log, subs))
    ensures Passed(log, subs) == Subscribed(log, subs) <==> !HasStray(log, subs)
  {
    var n := |log|;
    var slots := ReadyToSend(n, log[0], subs, log);
    var links, ready := map[0 := Joined(subs)], System(Wrote(n, log, slots, n), map[0 := Joined(subs)]);
    assert log[..0] == [] && log[..n] == log;
    y := SendsAll(ready, 0, subs);
    var ends, net := LosesAndAlerts(n, links, log, slots, n);
    var x := Alerted(n, log, slots, n, ends, net);
    AsksForAll(System(x, links), subs, n, true);
    var asked := System(x, map[0 := Asking(subs, n)]);
    assert Moved(System(x, links), Asking(subs, n)) == asked;
    ServesAll(asked, subs, n);
    z := TakesAll(Moved(asked, Serve1(x, Asking(subs, n), n, n)), 0, n, subs);
    PassedOrSubscribed(log, subs);
  }

  /** Some run in which sessions read what was put gets to `y`. */
  ghost predicate FaithfullyReached(y: System)
  {
    exists states: seq<System>, steps: seq<Step> :: FaithfulRun(states, steps) && states[|steps|] == y
  }

  lemma SafeIsFaithful(y: System)
    requires Reached(y, true)
    ensures FaithfullyReached(y)
  {
    var states: seq<System>, steps: seq<Step> :| RunTo(states, steps, y, true);
    ClearRunIsFaithful(states, steps);
  }

  /** Whatever run it comes from in which sessions read what was put, one that subscribes to `subs` has output exactly that. */
  ghost predicate AlwaysExact(log: seq<Entry>, subs: set<Tag>)
  {
    forall y: System, id: nat :: FaithfullyReached(y) && y.snd.log == log && id in y.links && y.links[id].recv.subs == subs
      ==> ExactOutput(y.links[id].recv, log)
  }

  ghost predicate ExactOutput(r: Recv, log: seq<Entry>)
  {
    r.arb.expecting == SEQ_MAX ||
    (r.minSeq <= r.arb.expecting <= |log| && r.output == Subscribed(log[r.minSeq..r.arb.expecting], r.subs))
  }

  /**
   * Output is exact in all runs over a log in which sessions read what was put, if and only if no segment in it belongs
   * to a train nobody here asked for.
   */
  lemma ExactIffNoStray(log: seq<Entry>, subs: set<Tag>)
    requires Writable(log) && |log| < WIRE_SEQ_MAX && START_TAG in subs && SEG_TAG in subs
    ensures AlwaysExact(log, subs) <==> !HasStray(log, subs)
  {
    if HasStray(log, subs) {
      var y, z := PathsDiffer(log, subs);
      SafeIsFaithful(y);
      assert log[0..|log|] == log && !ExactOutput(y.links[0].recv, log);
    } else {
      forall y: System, id: nat | FaithfullyReached(y) && y.snd.log == log && id in y.links && y.links[id].recv.subs == subs
        ensures ExactOutput(y.links[id].recv, log)
      {
        var states: seq<System>, steps: seq<Step> :| FaithfulRun(states, steps) && states[|steps|] == y;
        EndToEndDelivery(states, steps, |steps|, id);
      }
    }
  }
}
