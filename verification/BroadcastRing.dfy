/**
 * The broadcast ring of hmbdc/pattern/MemRingBuffer.hpp: any number of producers, a fixed number of
 * consumers that each see every item. Each shared read or write is one atomic step.
 */
module BroadcastRing {
  import opened Common

  /** A consumer's `readSeq_`. A dead one holds `READ_SEQ_MAX`, above every sequence. */
  datatype Cursor = Live(pos: nat) | Dead

  predicate Below(a: Cursor, b: Cursor) { a.Live? && (b.Live? ==> a.pos < b.pos) }

  /** A payload is torn while a producer is writing it. */
  datatype Payload = Torn | Whole(value: int)

  datatype Slot = Slot(tag: Option<nat>, payload: Payload)

  /**
   * Where a producer is. `Scan` computes the smallest cursor the way `std::min_element` does: `held` is
   * the candidate being compared, `best` the index of the smallest cursor so far, `seen` the value that
   * cursor had when it was last read. `put` and `claim` scan after they claimed, `tryPut` and `tryClaim`
   * before.
   */
  datatype Producer =
    | Idle
    | Scan(items: seq<int>, s: nat, claimed: bool, i: nat, best: nat, seen: Option<Cursor>, held: Option<Cursor>)
    | Cas(items: seq<int>, s: nat)
    | Writing(items: seq<int>, s: nat, k: nat, torn: bool)
    | Committing(items: seq<int>, s: nat, k: nat)

  /** `end` is how far the consumer peeked, `next` how far it read; `start` and `got` record what it read. */
  datatype Consumer = Consumer(cursor: Cursor, end: nat, next: nat, start: nat, got: seq<int>)

  /** `log` holds what was claimed for every sequence, so `|log|` is `toBeClaimedSeq_`; `done` what is committed. */
  datatype Ring = Ring(cap: nat, slots: seq<Slot>, log: seq<int>, done: set<nat>,
                       producers: seq<Producer>, consumers: seq<Consumer>)

  datatype Step =
    | Claim(p: nat, items: seq<int>)
    | TryClaim(p: nat, items: seq<int>)
    | LoadCandidate(p: nat)
    | Compare(p: nat)
    | Decide(p: nat)
    | CasOk(p: nat)
    | CasFail(p: nat)
    | BeginWrite(p: nat)
    | EndWrite(p: nat)
    | StartCommit(p: nat)
    | CommitOne(p: nat)
    | Finish(p: nat)
    | PeekOne(c: nat)
    | Read(c: nat)
    | Waste(c: nat, n: nat)
    | MarkDead(c: nat)
    | Join(c: nat)

  function NewScan(items: seq<int>, s: nat, claimed: bool): Producer
  {
    Scan(items, s, claimed, 1, 0, None, None)
  }

  predicate Fits(cap: nat, s: nat, n: nat, low: Cursor) { low.Live? ==> s + n <= cap + low.pos }

  /** A torn read yields garbage. */
  function ValueOf(x: Payload): int { if x.Whole? then x.value else -1 }

  predicate ProducerStep(st: Step)
  {
    !st.PeekOne? && !st.Read? && !st.Waste? && !st.MarkDead? && !st.Join?
  }

  predicate EnabledFor(r: Ring, x: Producer, st: Step)
    requires ProducerStep(st)
  {
    match st
    case Claim(_, items) => x == Idle && 1 <= |items| <= r.cap
    case TryClaim(_, items) => x == Idle && 1 <= |items| <= r.cap
    case LoadCandidate(_) => x.Scan? && x.held == None && x.i < |r.consumers|
    case Compare(_) => x.Scan? && x.held.Some? && x.best < |r.consumers|
    case Decide(_) => x.Scan? && x.held == None && x.i >= |r.consumers| && x.best < |r.consumers|
    case CasOk(_) => x.Cas? && |r.log| == x.s
    case CasFail(_) => x.Cas?
    case BeginWrite(_) => x.Writing? && !x.torn && x.k < |x.items|
    case EndWrite(_) => x.Writing? && x.torn && x.k < |x.items|
    case StartCommit(_) => x.Writing? && x.k == |x.items|
    case CommitOne(_) => x.Committing? && x.k < |x.items|
    case Finish(_) => x.Committing? && x.k == |x.items|
  }

  /** The producer's own new state. */
  function Move(r: Ring, x: Producer, st: Step): Producer
    requires ProducerStep(st) && EnabledFor(r, x, st)
  {
    match st
    case Claim(_, items) => NewScan(items, |r.log|, true)
    case TryClaim(_, items) => NewScan(items, |r.log|, false)
    case LoadCandidate(_) => x.(held := Some(r.consumers[x.i].cursor))
    case Compare(_) =>
      var b := r.consumers[x.best].cursor;
      if Below(x.held.value, b) then x.(best := x.i, seen := x.held, held := None, i := x.i + 1)
      else x.(seen := Some(b), held := None, i := x.i + 1)
    case Decide(_) =>
      var low := r.consumers[x.best].cursor;
      if Fits(r.cap, x.s, |x.items|, low) then
        if x.claimed then Writing(x.items, x.s, 0, false) else Cas(x.items, x.s)
      else if x.claimed then NewScan(x.items, x.s, true) else Idle
    case CasOk(_) => Writing(x.items, x.s, 0, false)
    case CasFail(_) => NewScan(x.items, |r.log|, false)
    case BeginWrite(_) => x.(torn := true)
    case EndWrite(_) => x.(torn := false, k := x.k + 1)
    case StartCommit(_) => Committing(x.items, x.s, 0)
    case CommitOne(_) => x.(k := x.k + 1)
    case Finish(_) => Idle
  }

  /** The shared memory after the step. */
  function Effect(r: Ring, x: Producer, st: Step): Ring
    requires ProducerStep(st) && EnabledFor(r, x, st) && |r.slots| > 0
  {
    match st
    case Claim(_, items) => r.(log := r.log + items)
    case CasOk(_) => r.(log := r.log + x.items)
    case BeginWrite(_) => r.(slots := Poke(r.slots, x.s + x.k, Torn))
    case EndWrite(_) => r.(slots := Poke(r.slots, x.s + x.k, Whole(x.items[x.k])))
    case CommitOne(_) =>
      var u := x.s + x.k;
      r.(slots := r.slots[u % |r.slots| := r.slots[u % |r.slots|].(tag := Some(u))], done := r.done + {u})
    case _ => r
  }

  function Poke(slots: seq<Slot>, u: nat, v: Payload): seq<Slot>
    requires |slots| > 0
  {
    slots[u % |slots| := slots[u % |slots|].(payload := v)]
  }

  /** A re-read of the smallest cursor during a scan finds the value the scan saw before. */
  predicate Steady(r: Ring, st: Step)
  {
    match st
    case Compare(p) => p < |r.producers| && SteadyScan(r, r.producers[p])
    case Decide(p) => p < |r.producers| && SteadyScan(r, r.producers[p])
    case _ => true
  }

  predicate SteadyScan(r: Ring, x: Producer)
  {
    x.Scan? && x.best < |r.consumers| && (x.seen.Some? ==> r.consumers[x.best].cursor == x.seen.value)
  }

  predicate ConsumerEnabled(r: Ring, anchor: nat, st: Step)
    requires !ProducerStep(st)
  {
    && st.c < |r.consumers| && |r.slots| > 0
    && var y := r.consumers[st.c];
       match st
       case PeekOne(_) => y.cursor.Live? && r.slots[y.end % |r.slots|].tag == Some(y.end)
       case Read(_) => y.cursor.Live? && y.next < y.end
       case Waste(_, n) => y.cursor.Live? && y.cursor.pos + n <= y.next
       case MarkDead(c) => c != anchor
       case Join(_) => y.cursor == Dead
  }

  function ConsumerMove(r: Ring, anchor: nat, st: Step): Consumer
    requires !ProducerStep(st) && ConsumerEnabled(r, anchor, st)
  {
    var y := r.consumers[st.c];
    match st
    case PeekOne(_) => y.(end := y.end + 1)
    case Read(_) => y.(next := y.next + 1, got := y.got + [ValueOf(r.slots[y.next % |r.slots|].payload)])
    case Waste(_, n) => y.(cursor := Live(y.cursor.pos + n))
    case MarkDead(_) => y.(cursor := Dead)
    case Join(_) => Consumer(Live(|r.log|), |r.log|, |r.log|, |r.log|, [])
  }

  ghost predicate Next(anchor: nat, r: Ring, st: Step, r': Ring)
  {
    if ProducerStep(st) then
      && st.p < |r.producers| && |r.slots| > 0 && EnabledFor(r, r.producers[st.p], st)
      && r' == Effect(r, r.producers[st.p], st).(producers := r.producers[st.p := Move(r, r.producers[st.p], st)])
    else
      && ConsumerEnabled(r, anchor, st)
      && r' == r.(consumers := r.consumers[st.c := ConsumerMove(r, anchor, st)])
  }

  /** An empty ring; `anchor` is a consumer that stays alive. The others may be alive or not yet there. */
  ghost predicate Initial(anchor: nat, r: Ring)
  {
    && r.cap > 0 && |r.slots| == r.cap && r.log == [] && r.done == {}
    && (forall i :: 0 <= i < |r.slots| ==> r.slots[i].tag == None)
    && (forall p :: 0 <= p < |r.producers| ==> r.producers[p] == Idle)
    && anchor < |r.consumers| && r.consumers[anchor].cursor.Live?
    && (forall c :: 0 <= c < |r.consumers| ==>
          r.consumers[c] == Consumer(Live(0), 0, 0, 0, []) || r.consumers[c].cursor == Dead)
  }

  ghost predicate Run(anchor: nat, rs: seq<Ring>, sts: seq<Step>)
  {
    && |rs| == |sts| + 1 && Initial(anchor, rs[0])
    && forall i :: 0 <= i < |sts| ==> Next(anchor, rs[i], sts[i], rs[i + 1])
  }

  ghost predicate SteadyRun(rs: seq<Ring>, sts: seq<Step>)
    requires |rs| == |sts| + 1
  {
    forall i :: 0 <= i < |sts| ==> Steady(rs[i], sts[i])
  }
}
