/**
 * Attachments of trains that are thrown away because nobody is connected: hmbdc/tips/rmcast/McSendTransport.hpp,
 * lines 169-175, against lines 187-198. Only trains picked for sending are queued for cleanup.
 */
module SkippedTrains {
  import opened Common
  import opened Messages
  import opened Sender
  import opened Invariants
  import opened Delivery
  import opened RunBuilding

  /** The entries the first `i` steps of a run have thrown away. */
  ghost function Skipped(states: seq<System>, steps: seq<Step>, i: nat): set<nat>
    requires i <= |steps| < |states|
  {
    if i == 0 then {}
    else
      var before, st, x := Skipped(states, steps, i - 1), steps[i - 1], states[i - 1].snd;
      if st.StepSkip? then before + Range(x.rs0, x.rs0 + st.k) else before
  }

  function TrainEnd(log: seq<Entry>, h: nat): Cleanup
    requires h < |log|
  {
    Cleanup(h + log[h].segCount + 1, log[h].att)
  }

  predicate HeadAt(log: seq<Entry>, h: nat) { h < |log| && log[h].msg.tag == START_TAG }

  /** The ends of the trains headed below `upto`, but for those whose heads are in `skipped`. */
  function EndsBut(log: seq<Entry>, upto: nat, skipped: set<nat>): seq<Cleanup>
    requires upto <= |log|
  {
    if upto == 0 then []
    else
      var rest := EndsBut(log, upto - 1, skipped);
      if HeadAt(log, upto - 1) && upto - 1 !in skipped then rest + [TrainEnd(log, upto - 1)] else rest
  }

  lemma {:induction false} EndsOfPrefix(log: seq<Entry>, more: seq<Entry>, upto: nat, skipped: set<nat>)
    requires upto <= |log| <= |more| && more[..|log|] == log
    ensures EndsBut(more, upto, skipped) == EndsBut(log, upto, skipped)
  {
    if upto > 0 {
      assert more[..|log|][upto - 1] == log[upto - 1];
      EndsOfPrefix(log, more, upto - 1, skipped);
    }
  }

  /** Picking entries appends the ends of their trains. */
  lemma {:induction false} EndsPicked(log: seq<Entry>, from: nat, upto: nat, skipped: set<nat>)
    requires from <= upto <= |log| && forall h :: h in skipped ==> h < from
    ensures EndsBut(log, upto, skipped) == EndsBut(log, from, skipped) + TrainEnds(log, from, upto)
    decreases upto
  {
    if from < upto {
      EndsPicked(log, from, upto - 1, skipped);
      if HeadAt(log, upto - 1) {
        Regroup(EndsBut(log, from, skipped), TrainEnds(log, from, upto - 1), [TrainEnd(log, upto - 1)]);
      }
    }
  }

  /** Throwing entries away appends nothing. */
  lemma {:induction false} EndsSkipped(log: seq<Entry>, from: nat, upto: nat, skipped: set<nat>, more: set<nat>)
    requires from <= upto <= |log|
    requires forall h: nat :: h < upto ==> (h in more <==> h in skipped || from <= h)
    ensures EndsBut(log, upto, more) == EndsBut(log, from, skipped)
    decreases upto
  {
    if from < upto {
      EndsSkipped(log, from, upto - 1, skipped, more);
    } else if upto > 0 {
      EndsSkipped(log, upto - 1, upto - 1, skipped, more);
    }
  }

  lemma {:induction false} EndOfHead(log: seq<Entry>, upto: nat, skipped: set<nat>, h: nat)
    requires upto <= |log| && h < upto && HeadAt(log, h) && h !in skipped
    ensures TrainEnd(log, h) in EndsBut(log, upto, skipped)
  {
    if h < upto - 1 { EndOfHead(log, upto - 1, skipped, h); }
  }

  lemma {:induction false} HeadOfEnd(log: seq<Entry>, upto: nat, skipped: set<nat>, c: Cleanup) returns (h: nat)
    requires upto <= |log| && c in EndsBut(log, upto, skipped)
    ensures h < upto && HeadAt(log, h) && h !in skipped && c == TrainEnd(log, h)
  {
    if HeadAt(log, upto - 1) && upto - 1 !in skipped && c == TrainEnd(log, upto - 1) {
      h := upto - 1;
    } else {
      h := HeadOfEnd(log, upto - 1, skipped, c);
    }
  }

  /** Trains do not overlap, so their ends tell them apart. */
  lemma EndsTellHeadsApart(log: seq<Entry>, h: nat, g: nat)
    requires TrainsInv(log) && HeadAt(log, h) && HeadAt(log, g) && TrainEnd(log, h) == TrainEnd(log, g)
    ensures h == g
  {
    if h != g { assert false; }
  }

  /** The queue of a run, past entries included: the ends of all trains gone by but those thrown away. */
  ghost predicate QueueIs(x: Sender, skipped: set<nat>)
  {
    && x.rs0 + Picked(x) <= |x.log|
    && x.queued == EndsBut(x.log, x.rs0 + Picked(x), skipped)
    && forall h :: h in skipped ==> h < x.rs0
  }

  lemma QueueAfterPut(x: Sender, items: seq<Entry>, skipped: set<nat>, x': Sender)
    requires |x.slots| > 0 && QueueIs(x, skipped) && x' == Put(x, items)
    ensures QueueIs(x', skipped)
  {
    assert x'.log[..|x.log|] == x.log;
    EndsOfPrefix(x.log, x'.log, x.rs0 + Picked(x), skipped);
  }

  lemma QueueAfterBuild(x: Sender, k: nat, ads: bool, alert: bool, skipped: set<nat>, x': Sender)
    requires CanBuild(x, k, ads, alert) && x.visible <= |x.log| && QueueIs(x, skipped) && x' == Build(x, k, ads, alert)
    ensures QueueIs(x', skipped)
  {
    EndsPicked(x.log, x.rs0, x.rs0 + k, skipped);
  }

  lemma QueueAfterSkip(x: Sender, k: nat, skipped: set<nat>, x': Sender, skipped': set<nat>)
    requires CanSkip(x, k) && x.visible <= |x.log| && QueueIs(x, skipped) && x' == Skip(x, k)
    requires skipped' == skipped + Range(x.rs0, x.rs0 + k)
    ensures QueueIs(x', skipped')
  {
    var upto := x.rs0 + k;
    assert forall h :: h in skipped' <==> h in skipped || x.rs0 <= h < upto;
    EndsSkipped(x.log, x.rs0, upto, skipped, skipped');
    assert x'.log == x.log && x'.rs0 + Picked(x') == upto && x.rs0 + Picked(x) == x.rs0;
  }

  /** What a step does to the sender as far as the queue is concerned. */
  ghost predicate Affects(x: Sender, st: Step, x': Sender)
  {
    match st
    case StepPut(items, _) => |x.slots| > 0 && x' == Put(x, items)
    case StepBuild(k, ads, alert) => CanBuild(x, k, ads, alert) && x.visible <= |x.log| && x' == Build(x, k, ads, alert)
    case StepSkip(k) => CanSkip(x, k) && x.visible <= |x.log| && x' == Skip(x, k)
    case _ => x'.log == x.log && x'.queued == x.queued && x'.rs0 + Picked(x') == x.rs0 + Picked(x) && x.rs0 <= x'.rs0
  }

  lemma StepMoves(y: System, st: Step, z: System)
    requires Next(y, st, z)
    ensures Affects(y.snd, st, z.snd)
  {
  }

  lemma QueueStep(x: Sender, st: Step, x': Sender, skipped: set<nat>, skipped': set<nat>)
    requires Affects(x, st, x') && QueueIs(x, skipped)
    requires skipped' == if st.StepSkip? then skipped + Range(x.rs0, x.rs0 + st.k) else skipped
    ensures QueueIs(x', skipped')
  {
    match st
    case StepPut(items, _) => QueueAfterPut(x, items, skipped, x');
    case StepBuild(k, ads, alert) => QueueAfterBuild(x, k, ads, alert, skipped, x');
    case StepSkip(k) => QueueAfterSkip(x, k, skipped, x', skipped');
    case _ =>
  }

  /** What the queue has to do with in a run. */
  ghost predicate QueueRun(states: seq<System>, steps: seq<Step>)
  {
    && |states| == |steps| + 1 && QueueIs(states[0].snd, {})
    && forall i :: 0 <= i < |steps| ==> Affects(states[i].snd, steps[i], states[i + 1].snd)
  }

  lemma RunIsQueueRun(states: seq<System>, steps: seq<Step>)
    requires Run(states, steps)
    ensures QueueRun(states, steps)
  {
    StartsEmpty(states, steps);
    forall i | 0 <= i < |steps| ensures Affects(states[i].snd, steps[i], states[i + 1].snd) {
      StepMoves(states[i], steps[i], states[i + 1]);
    }
  }

  lemma {:induction false} QueueInRun(states: seq<System>, steps: seq<Step>, i: nat)
    requires QueueRun(states, steps) && i < |states|
    ensures QueueIs(states[i].snd, Skipped(states, steps, i))
  {
    if i > 0 {
      QueueInRun(states, steps, i - 1);
      QueueStep(states[i - 1].snd, steps[i - 1], states[i].snd, Skipped(states, steps, i - 1), Skipped(states, steps, i));
    }
  }

  lemma StartsEmpty(states: seq<System>, steps: seq<Step>)
    requires Run(states, steps)
    ensures QueueIs(states[0].snd, {})
  {
  }

  lemma QueuedIffNot(x: Sender, skipped: set<nat>, h: nat)
    requires TrainsInv(x.log) && QueueIs(x, skipped) && HeadAt(x.log, h) && h < x.rs0 + Picked(x)
    ensures TrainEnd(x.log, h) in x.queued <==> h !in skipped
  {
    var c := TrainEnd(x.log, h);
    if h !in skipped {
      EndOfHead(x.log, x.rs0 + Picked(x), skipped, h);
    } else if c in x.queued {
      var g := HeadOfEnd(x.log, x.rs0 + Picked(x), skipped, c);
      EndsTellHeadsApart(x.log, h, g);
    }
  }

  /** At any moment of any run, a train gone by has been queued for cleanup if and only if it was not thrown away. */
  lemma QueuedIffNotSkipped(states: seq<System>, steps: seq<Step>, i: nat, h: nat)
    requires Run(states, steps) && i < |states|
    requires HeadAt(states[i].snd.log, h) && h < states[i].snd.rs0 + Picked(states[i].snd)
    ensures TrainEnd(states[i].snd.log, h) in states[i].snd.queued <==> h !in Skipped(states, steps, i)
  {
    RunIsQueueRun(states, steps);
    QueueInRun(states, steps, i);
    Reachable(states, steps, i);
    QueuedIffNot(states[i].snd, Skipped(states, steps, i), h);
  }

  /** Every train gone by is in the queue, in order. */
  ghost predicate AllQueued(x: Sender)
  {
    x.rs0 + Picked(x) <= |x.log| && x.queued == TrainEnds(x.log, 0, x.rs0 + Picked(x))
  }

  predicate NoHead(log: seq<Entry>, skipped: set<nat>) { forall h :: h in skipped ==> !HeadAt(log, h) }

  lemma AllQueuedIff(x: Sender, skipped: set<nat>)
    requires TrainsInv(x.log) && QueueIs(x, skipped)
    ensures AllQueued(x) <==> NoHead(x.log, skipped)
  {
    var upto := x.rs0 + Picked(x);
    EndsPicked(x.log, 0, upto, {});
    if h :| h in skipped && HeadAt(x.log, h) {
      QueuedIffNot(x, skipped, h);
      EndOfHead(x.log, upto, {}, h);
    } else {
      SkippingNoHead(x.log, upto, skipped);
    }
  }

  /** Every attachment gone by is queued if and only if no train was thrown away. */
  lemma AllQueuedIffNoneSkipped(states: seq<System>, steps: seq<Step>, i: nat)
    requires Run(states, steps) && i < |states|
    ensures AllQueued(states[i].snd) <==> NoHead(states[i].snd.log, Skipped(states, steps, i))
  {
    RunIsQueueRun(states, steps);
    QueueInRun(states, steps, i);
    Reachable(states, steps, i);
    AllQueuedIff(states[i].snd, Skipped(states, steps, i));
  }

  lemma {:induction false} SkippingNoHead(log: seq<Entry>, upto: nat, skipped: set<nat>)
    requires upto <= |log| && forall h :: h in skipped ==> !HeadAt(log, h)
    ensures EndsBut(log, upto, skipped) == EndsBut(log, upto, {})
  {
    if upto > 0 { SkippingNoHead(log, upto - 1, skipped); }
  }

  lemma {:induction false} StaySkipped(states: seq<System>, steps: seq<Step>, i: nat, j: nat)
    requires i <= j <= |steps| < |states|
    ensures Skipped(states, steps, i) <= Skipped(states, steps, j)
    decreases j
  {
    if i < j { StaySkipped(states, steps, i, j - 1); }
  }

  lemma {:induction false} LogGrows(states: seq<System>, steps: seq<Step>, i: nat, j: nat)
    requires Run(states, steps) && i <= j < |states|
    ensures states[i].snd.log <= states[j].snd.log
    decreases j
  {
    if i < j {
      LogGrows(states, steps, i, j - 1);
      assert Next(states[j - 1], steps[j - 1], states[j]);
    }
  }

  /** What was thrown away is never queued afterwards, so it is not released, not even when the server stops. */
  lemma SkippedForGood(states: seq<System>, steps: seq<Step>, i: nat, j: nat, h: nat)
    requires Run(states, steps) && i <= j < |states| && h in Skipped(states, steps, i) && HeadAt(states[i].snd.log, h)
    ensures HeadAt(states[j].snd.log, h)
    ensures var x := states[j].snd; TrainEnd(x.log, h) !in x.cleanup && TrainEnd(x.log, h) !in x.released
  {
    LogGrows(states, steps, i, j);
    StaySkipped(states, steps, i, j);
    RunIsQueueRun(states, steps);
    QueueInRun(states, steps, j);
    Reachable(states, steps, j);
    NeitherQueuedNorReleased(states[j].snd, Skipped(states, steps, j), h);
  }

  lemma NeitherQueuedNorReleased(x: Sender, skipped: set<nat>, h: nat)
    requires SenderInv(x) && QueueIs(x, skipped) && h in skipped && HeadAt(x.log, h)
    ensures TrainEnd(x.log, h) !in x.cleanup && TrainEnd(x.log, h) !in x.released
  {
    QueuedIffNot(x, skipped, h);
    assert forall c :: c in x.cleanup || c in x.released ==> c in x.queued;
  }

  /** Once the server has stopped, the attachments released are those of all trains gone by but the ones thrown away, in order. */
  lemma StopReleasesAllButSkipped(states: seq<System>, steps: seq<Step>, i: nat)
    requires Run(states, steps) && i < |states| && states[i].snd.stopped
    ensures var x := states[i].snd;
      && x.rs0 + Picked(x) <= |x.log|
      && x.released == EndsBut(x.log, x.rs0 + Picked(x), Skipped(states, steps, i))
  {
    RunIsQueueRun(states, steps);
    QueueInRun(states, steps, i);
    Reachable(states, steps, i);
  }

  /** It happens: with nobody connected any train the ring can hold is thrown away whole. */
  lemma TrainIsSkipped(cap: nat, train: seq<Entry>) returns (states: seq<System>, steps: seq<Step>)
    requires Puttable(train) && train[0].msg.tag == START_TAG && |train| <= cap && |train| < WIRE_SEQ_MAX
    ensures ClearRun(states, steps) && states[|steps|].snd.cap == cap && states[|steps|].snd.log == train
    ensures 0 in Skipped(states, steps, |steps|) && states[|steps|].snd.rs0 == |train|
    ensures states[|steps|].snd.queued == states[|steps|].snd.cleanup == []
  {
    Starts(cap, train[0]);
    assert train[0..] == train && train[..0] == [];
    var slots := Writes(cap, train[0], map[], train);
    Exposes(cap, map[], train, slots, |train|);
    var y := System(Wrote(cap, train, slots, |train|), map[]);
    states, steps :| RunTo(states, steps, y, true);
    ReachedHasInv(y, true);
    var st, z := StepSkip(|train|), System(Skip(y.snd, |train|), map[]);
    Extend(states, steps, st, z);
    assert (states + [z])[|steps|] == y && (steps + [st])[|steps|] == st;
    states, steps := states + [z], steps + [st];
  }
}
