/** Runs of the whole system: every reachable state satisfies the invariant, and what follows from it. */
module Delivery {
  import opened Common
  import opened Messages
  import opened Receiver
  import opened Sender
  import opened Invariants
  import opened LinkProofs

  // ---- attachment trains and their cleanup queue ----------------------------------------------

  /** Trains are whole and do not overlap. */
  ghost predicate TrainsInv(log: seq<Entry>)
  {
    forall h :: 0 <= h < |log| && log[h].msg.tag == START_TAG ==>
      && h + log[h].segCount + 1 < |log|
      && forall t :: h < t <= h + log[h].segCount + 1 ==> log[t].msg.tag != START_TAG
  }

  ghost predicate Ascending(q: seq<Cleanup>) { forall i, j :: 0 <= i < j < |q| ==> q[i].s < q[j].s }

  ghost predicate CleanupInv(x: Sender)
  {
    && x.queued == x.released + x.cleanup
    && Ascending(x.queued)
    && (forall i :: 0 <= i < |x.cleanup| ==> x.rs1 <= x.cleanup[i].s < |x.log|)
    && (if x.stopped then x.cleanup == [] else forall i :: 0 <= i < |x.released| ==> x.released[i].s < x.rs1)
    && (forall i, h :: 0 <= i < |x.cleanup| && x.rs0 + Picked(x) <= h < |x.log| && x.log[h].msg.tag == START_TAG
          ==> x.cleanup[i].s < h)
  }

  /** The backup cursor leaves the history to replay to a newcomer. */
  predicate KeepsHistory(cursor: nat, replay: nat, upto: nat) { cursor == 0 || cursor + replay <= upto }

  ghost predicate RetentionInv(x: Sender)
  {
    KeepsHistory(x.rs1, x.replay, x.rs0) && (x.leastIt == SEQ_MAX || x.leastIt <= x.rs1)
  }

  ghost predicate SenderInv(x: Sender)
  {
    RingInv(x) && BatchInv(x) && NetInv(x) && TrainsInv(x.log) && CleanupInv(x) && RetentionInv(x)
  }

  ghost predicate Inv(y: System)
  {
    SenderInv(y.snd) && forall id :: id in y.links ==> LinkInv(y.snd, y.links[id])
  }

  // ---- producers ------------------------------------------------------------------------------

  /** Filling claimed slots writes exactly them: entries less than a ring away are untouched. */
  lemma {:induction false} FillAt(slots: seq<Entry>, s: nat, items: seq<Entry>, t: nat)
    requires |slots| > 0 && t < s + |items| <= t + |slots|
    ensures Fill(slots, s, items)[t % |slots|] == if t < s then slots[t % |slots|] else items[t - s]
    decreases |items|
  {
    if items != [] {
      var slots' := slots[s % |slots| := items[0]];
      if t < s {
        if t % |slots| == s % |slots| { SameSlot(t, s, |slots|); }
        FillAt(slots', s + 1, items[1..], t);
      } else if t == s {
        FillKeeps(slots', s + 1, items[1..], t);
      } else {
        FillAt(slots', s + 1, items[1..], t);
      }
    }
  }

  lemma {:induction false} FillKeeps(slots: seq<Entry>, s: nat, items: seq<Entry>, t: nat)
    requires |slots| > 0 && t < s && s + |items| <= t + |slots|
    ensures Fill(slots, s, items)[t % |slots|] == slots[t % |slots|]
    decreases |items|
  {
    if items != [] {
      if t % |slots| == s % |slots| { SameSlot(t, s, |slots|); }
      FillKeeps(slots[s % |slots| := items[0]], s + 1, items[1..], t);
    }
  }

  lemma PutKeepsIntact(x: Sender, items: seq<Entry>, low: nat)
    requires RingInv(x) && CanPut(x, items, low)
    ensures RingInv(Put(x, items))
  {
    var x' := Put(x, items);
    forall t: nat | t < |x'.log| <= t + x.cap ensures x'.slots[t % x.cap] == x'.log[t] {
      FillAt(x.slots, |x.log|, items, t);
    }
  }

  lemma PutKeepsTrains(log: seq<Entry>, items: seq<Entry>)
    requires TrainsInv(log) && Puttable(items)
    ensures TrainsInv(log + items)
  {
    var all := log + items;
    forall h | 0 <= h < |all| && all[h].msg.tag == START_TAG
      ensures h + all[h].segCount + 1 < |all|
      ensures forall t :: h < t <= h + all[h].segCount + 1 ==> all[t].msg.tag != START_TAG
    {
      if h < |log| {
        assert all[h] == log[h];
      } else {
        assert all[h] == items[h - |log|];
      }
    }
  }

  /** The sender as its links see it never goes back. */
  ghost predicate Grows(x: Sender, x': Sender)
  {
    && |x.log| <= |x'.log| && x'.log[..|x.log|] == x.log
    && x.rs0 <= x'.rs0 <= |x'.log|
  }

  lemma GrowsKeepsKnown(x: Sender, x': Sender, items: seq<UdpItem>)
    requires Grows(x, x') && AllKnown(x, items)
    ensures AllKnown(x', items)
  {
    forall i | 0 <= i < |items| ensures Known(x', items[i]) {
      assert Known(x, items[i]);
    }
  }

  lemma GrowsKeepsLink(x: Sender, x': Sender, l: Link)
    requires Bounds(x) && Grows(x, x') && LinkInv(x, l)
    requires l.alive ==> x'.rs1 <= l.bufItNext
    ensures LinkInv(x', l)
  {
    GrowsKeepsKnown(x, x', l.held);
    var r := l.recv;
    if r.arb.expecting != SEQ_MAX { assert Started(x', l); }
  }

  lemma GrowsKeepsContents(x: Sender, x': Sender, l: Link)
    requires RecvInv(x, l) && Contents(x, l) && |x.log| <= |x'.log| && x'.log[..|x.log|] == x.log
    ensures Contents(x', l)
  {
    var r, e := l.recv, l.recv.arb.expecting;
    if e != SEQ_MAX {
      PrefixSlice(x.log, x'.log, r.minSeq, e);
      forall k | 0 <= k < |l.down| ensures l.down[k] == FrameOf(r.subs, x'.log[e + k]) {
        assert x'.log[e + k] == x'.log[..|x.log|][e + k];
      }
    }
  }

  lemma GrowsKeepsLinks(y: System, x': Sender)
    requires Inv(y) && Grows(y.snd, x') && x'.rs1 == y.snd.rs1
    ensures forall id :: id in y.links ==> LinkInv(x', y.links[id])
  {
    forall id | id in y.links ensures LinkInv(x', y.links[id]) {
      GrowsKeepsLink(y.snd, x', y.links[id]);
    }
  }

  lemma GrowsKeepsNet(x: Sender, x': Sender)
    requires NetInv(x) && Grows(x, x') && x'.net == x.net
    ensures NetInv(x')
  {
    forall d | d in x'.net ensures AllKnown(x', d) { GrowsKeepsKnown(x, x', d); }
  }

  lemma PutKeeps(x: Sender, items: seq<Entry>, low: nat)
    requires SenderInv(x) && CanPut(x, items, low)
    ensures SenderInv(Put(x, items)) && Grows(x, Put(x, items))
  {
    var x' := Put(x, items);
    assert x'.log[..|x.log|] == x.log;
    PutKeepsIntact(x, items, low);
    PutKeepsTrains(x.log, items);
    GrowsKeepsNet(x, x');
    PutKeepsCleanup(x, items);
  }

  lemma PutKeepsCleanup(x: Sender, items: seq<Entry>)
    requires |x.slots| > 0 && CleanupInv(x)
    ensures CleanupInv(Put(x, items))
  {
    var x' := Put(x, items);
    forall i, h | 0 <= i < |x.cleanup| && x.rs0 + Picked(x) <= h < |x'.log| && x'.log[h].msg.tag == START_TAG
      ensures x.cleanup[i].s < h
    {
      if h < |x.log| { assert x'.log[h] == x.log[h]; }
    }
  }

  // ---- multicast ------------------------------------------------------------------------------

  /** The ends of the trains headed in a stretch of the log: in order, each past its head, before later heads. */
  lemma {:induction false} TrainEndsOk(log: seq<Entry>, from: nat, upto: nat)
    requires TrainsInv(log) && from <= upto <= |log|
    ensures var q := TrainEnds(log, from, upto);
      && Ascending(q)
      && (forall i :: 0 <= i < |q| ==> from < q[i].s < |log|)
      && (forall i, h :: 0 <= i < |q| && upto <= h < |log| && log[h].msg.tag == START_TAG ==> q[i].s < h)
    decreases upto
  {
    if from < upto {
      TrainEndsOk(log, from, upto - 1);
      if log[upto - 1].msg.tag == START_TAG { OneMoreEnd(log, from, upto - 1, TrainEnds(log, from, upto - 1)); }
    }
  }

  lemma OneMoreEnd(log: seq<Entry>, from: nat, h: nat, q: seq<Cleanup>)
    requires TrainsInv(log) && from <= h < |log| && log[h].msg.tag == START_TAG && Ascending(q)
    requires forall i :: 0 <= i < |q| ==> from < q[i].s < h
    ensures var c := Cleanup(h + log[h].segCount + 1, log[h].att);
      && Ascending(q + [c]) && from < c.s < |log|
      && forall g :: h < g < |log| && log[g].msg.tag == START_TAG ==> c.s < g
  {
  }

  lemma {:induction false} TrainEndsAfter(log: seq<Entry>, from: nat, upto: nat, bound: nat)
    requires from <= upto <= |log|
    requires forall t :: from <= t < |log| && log[t].msg.tag == START_TAG ==> bound < t
    ensures forall i :: 0 <= i < |TrainEnds(log, from, upto)| ==> bound < TrainEnds(log, from, upto)[i].s
    decreases upto
  {
    if from < upto { TrainEndsAfter(log, from, upto - 1, bound); }
  }

  lemma BuildKeepsCleanup(x: Sender, k: nat, ads: bool, alert: bool)
    requires Bounds(x) && TrainsInv(x.log) && CleanupInv(x) && !x.stopped && CanBuild(x, k, ads, alert)
    ensures CleanupInv(Build(x, k, ads, alert))
  {
    TrainEndsOk(x.log, x.rs0, x.rs0 + k);
    var x', q := Build(x, k, ads, alert), TrainEnds(x.log, x.rs0, x.rs0 + k);
    assert x'.queued == x'.released + x'.cleanup;
    forall i, j | 0 <= i < j < |x'.queued| ensures x'.queued[i].s < x'.queued[j].s {
      if i < |x.queued| <= j {
        assert x'.queued[i] == x.queued[i] && x'.queued[j] == q[j - |x.queued|];
        if i >= |x.released| {
          assert x.queued[i] == x.cleanup[i - |x.released|];
          TrainEndsAfter(x.log, x.rs0, x.rs0 + k, x.queued[i].s);
        }
      }
    }
  }

  lemma BuildKeeps(x: Sender, k: nat, ads: bool, alert: bool)
    requires SenderInv(x) && !x.stopped && CanBuild(x, k, ads, alert)
    ensures SenderInv(Build(x, k, ads, alert)) && Grows(x, Build(x, k, ads, alert))
  {
    BuildKeepsCleanup(x, k, ads, alert);
    GrowsKeepsNet(x, Build(x, k, ads, alert));
  }

  lemma MulticastKeeps(x: Sender)
    requires SenderInv(x) && x.batch.Batch?
    ensures SenderInv(Multicast(x)) && Grows(x, Multicast(x))
  {
    var x', d := Multicast(x), Datagram(x);
    GrowsKeepsNet(x, x'.(net := x.net));
    forall s | x.rs0 <= s < x.visible ensures x.slots[s % |x.slots|] == x.log[s] { assert s < |x.log| <= s + x.cap; }
    forall i | 0 <= i < |d| ensures Known(x', d[i]) {
    }
  }

  // ---- retention ------------------------------------------------------------------------------

  lemma RetainKeeps(y: System, least: nat)
    requires Inv(y) && IsLeast(y.snd, y.links, least)
    ensures Inv(y.(snd := Retain(y.snd, least)))
  {
    var x, x' := y.snd, Retain(y.snd, least);
    var newSeq := NewSeq(least, x.replay);
    GrowsKeepsNet(x, x');
    RetainKeepsCleanup(x, least);
    forall id | id in y.links ensures LinkInv(x', y.links[id]) {
      GrowsKeepsLink(x, x', y.links[id]);
    }
  }

  lemma RetainKeepsCleanup(x: Sender, least: nat)
    requires CleanupInv(x) && x.rs1 <= |x.log|
    ensures CleanupInv(Retain(x, least))
  {
    var x', newSeq := Retain(x, least), NewSeq(least, x.replay);
    if x.leastIt != newSeq {
      var n := Expired(x.cleanup, newSeq);
      assert x.cleanup[..n] + x.cleanup[n..] == x.cleanup;
      Regroup(x.released, x.cleanup[..n], x.cleanup[n..]);
      ExpiredIsAll(x.released, x.cleanup, newSeq);
    }
  }

  /** In an ascending queue nothing behind the expired prefix has expired. */
  lemma ExpiredIsAll(front: seq<Cleanup>, q: seq<Cleanup>, bound: nat)
    requires Ascending(front + q)
    ensures forall i :: Expired(q, bound) <= i < |q| ==> bound <= q[i].s
  {
    var n := Expired(q, bound);
    forall i | n <= i < |q| ensures bound <= q[i].s {
      assert (front + q)[|front| + n] == q[n] && (front + q)[|front| + i] == q[i];
    }
  }

  // ---- every run ------------------------------------------------------------------------------

  /** Steps that change the sender only, and leave the backup cursor alone. */
  lemma SenderStepKeeps(y: System, step: Step, z: System)
    requires Inv(y) && Next(y, step, z)
    requires step.StepPut? || step.StepExpose? || step.StepBuild? || step.StepMulticast? || step.StepSkip? || step.StepStop?
    ensures SenderInv(z.snd) && Grows(y.snd, z.snd) && z.snd.rs1 == y.snd.rs1 && z.links == y.links
  {
    var x := y.snd;
    match step
    case StepPut(items, low) => PutKeeps(x, items, low);
    case StepBuild(k, ads, alert) => BuildKeeps(x, k, ads, alert);
    case StepMulticast => MulticastKeeps(x);
    case StepStop => StopKeeps(x);
    case _ => GrowsKeepsNet(x, z.snd);
  }

  lemma StepKeeps(y: System, step: Step, z: System)
    requires Inv(y) && Next(y, step, z)
    ensures Inv(z)
  {
    match step
    case StepRetain(least) => RetainKeeps(y, least);
    case StepAccept(id, subs) => AcceptKeeps(y.snd, subs);
    case StepLink(id, op) => LinkStepKeeps(y.snd, y.links[id], op);
    case _ =>
      SenderStepKeeps(y, step, z);
      GrowsKeepsLinks(y, z.snd);
  }

  lemma StopKeeps(x: Sender)
    requires SenderInv(x) && !x.stopped
    ensures SenderInv(Halt(x)) && Grows(x, Halt(x))
  {
    GrowsKeepsNet(x, Halt(x));
    assert x.released + x.cleanup + [] == x.released + x.cleanup;
  }

  lemma AcceptKeeps(x: Sender, subs: set<Tag>)
    requires SenderInv(x) && START_TAG in subs && SEG_TAG in subs
    ensures LinkInv(x, NewLink(x, subs))
  {
  }

  lemma Reachable(states: seq<System>, steps: seq<Step>, i: nat)
    requires Run(states, steps) && i < |states|
    ensures Inv(states[i])
  {
    var good := (y: System) => Inv(y);
    forall j, k | 0 <= j && j + 1 == k < |states| && good(states[j]) ensures good(states[k]) {
      StepKeeps(states[j], steps[j], states[k]);
    }
    Induct(states, good, i);
  }

  // ---- what the sender reads ------------------------------------------------------------------

  /** What a step reads from the ring for a session is still the entry that was put. */
  ghost predicate StepReadsRight(y: System, step: Step)
  {
    step.StepLink? && step.id in y.links ==> ReadsRight(y.snd, y.links[step.id], step.op)
  }

  /** A run in which sessions read what was put. */
  ghost predicate FaithfulRun(states: seq<System>, steps: seq<Step>)
  {
    Run(states, steps) && forall i :: 0 <= i < |steps| ==> StepReadsRight(states[i], steps[i])
  }

  ghost predicate AllContents(y: System) { forall id :: id in y.links ==> Contents(y.snd, y.links[id]) }

  /** The log only grows, and the links not at work stay as they are. */
  lemma StepFrame(y: System, step: Step, z: System)
    requires Next(y, step, z)
    ensures |y.snd.log| <= |z.snd.log| && z.snd.log[..|y.snd.log|] == y.snd.log
    ensures forall id :: id in z.links && !(step.StepLink? && step.id == id) && !(step.StepAccept? && step.id == id)
              ==> id in y.links && z.links[id] == y.links[id]
    ensures step.StepLink? || step.StepAccept? ==> z.snd == y.snd
  {
  }

  lemma StepKeepsContents(y: System, step: Step, z: System)
    requires Inv(y) && AllContents(y) && Next(y, step, z) && StepReadsRight(y, step)
    ensures AllContents(z)
  {
    StepFrame(y, step, z);
    forall id | id in z.links ensures Contents(z.snd, z.links[id]) {
      if step.StepLink? && step.id == id { ContentsKept(y.snd, y.links[id], step.op); }
      else if step.StepAccept? && step.id == id { assert z.links[id].recv.arb.expecting == SEQ_MAX; }
      else { GrowsKeepsContents(y.snd, z.snd, y.links[id]); }
    }
  }

  lemma FaithfulReachable(states: seq<System>, steps: seq<Step>, i: nat)
    requires FaithfulRun(states, steps) && i < |states|
    ensures AllContents(states[i])
  {
    var good := (y: System) => AllContents(y);
    forall j, k | 0 <= j && j + 1 == k < |states| && good(states[j]) ensures good(states[k]) {
      Reachable(states, steps, j);
      StepKeepsContents(states[j], steps[j], states[k]);
    }
    Induct(states, good, i);
  }

  /** With room in every state sessions read what was put. */
  lemma RoomyRunIsFaithful(states: seq<System>, steps: seq<Step>)
    requires Run(states, steps) && forall i :: 0 <= i < |states| ==> HasRoom(states[i].snd)
    ensures FaithfulRun(states, steps)
  {
    forall i | 0 <= i < |steps| ensures StepReadsRight(states[i], steps[i]) {
      Reachable(states, steps, i);
      assert Next(states[i], steps[i], states[i + 1]) && HasRoom(states[i].snd);
      if steps[i].StepLink? { RoomReadsRight(states[i].snd, states[i].links[steps[i].id], steps[i].op); }
    }
  }

  lemma ClearStepHasRoom(y: System, step: Step, z: System)
    requires Next(y, step, z) && ClearPut(y.snd, step) && Bounds(y.snd) && HasRoom(y.snd)
    ensures HasRoom(z.snd)
  {
  }

  /** Clear puts keep room. */
  lemma ClearRunHasRoom(states: seq<System>, steps: seq<Step>, i: nat)
    requires ClearRun(states, steps) && i < |states|
    ensures HasRoom(states[i].snd)
  {
    var good := (y: System) => HasRoom(y.snd);
    forall j, k | 0 <= j && j + 1 == k < |states| && good(states[j]) ensures good(states[k]) {
      Reachable(states, steps, j);
      ClearStepHasRoom(states[j], steps[j], states[k]);
    }
    Induct(states, good, i);
  }

  lemma ClearRunIsFaithful(states: seq<System>, steps: seq<Step>)
    requires ClearRun(states, steps)
    ensures FaithfulRun(states, steps)
  {
    forall i | 0 <= i < |states| ensures HasRoom(states[i].snd) { ClearRunHasRoom(states, steps, i); }
    RoomyRunIsFaithful(states, steps);
  }
}
