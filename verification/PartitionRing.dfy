/**
 * The partition ring of hmbdc/pattern/MemRingBuffer2.hpp: every item goes to one of many consumers.
 * Each shared read or write is one atomic step; a payload is written and copied word by word.
 */
module PartitionRing {
  import opened Common

  /** No tag is the source's `max()`: the slot may be written over. */
  datatype Slot = Slot(tag: Option<nat>, words: seq<int>)

  /** `put` and `claim` wait for room behind the read cursor and then for each slot to be given back. */
  datatype Producer =
    | Idle
    | WaitRoom(items: seq<seq<int>>, s: nat)
    | WaitSlots(items: seq<seq<int>>, s: nat, i: nat)
    | TryRoom(item: seq<int>, s: nat)
    | TrySlot(item: seq<int>, s: nat)
    | TryCas(item: seq<int>, s: nat)
    | Writing(items: seq<seq<int>>, s: nat, k: nat, w: nat)
    | Committing(items: seq<seq<int>>, s: nat, k: nat)

  /** `Scan` is inside `peek`; `Hold` owns [b, e) and has given back what lies below `w`; `Copy` is inside `take`. */
  datatype Consumer =
    | Free
    | Scan(b: nat, e: nat)
    | Hold(b: nat, e: nat, w: nat)
    | Copy(s: nat, seen: bool, copied: seq<int>)

  /** Who was handed which range, and what a `take` returned for it. */
  datatype Handed = Handed(c: nat, b: nat, e: nat, value: Option<seq<int>>)

  /** `log` holds what was claimed, so `|log|` is `toBeClaimedSeq_`; `done` is committed, `freed` given back. */
  datatype Ring = Ring(cap: nat, width: nat, slots: seq<Slot>, log: seq<seq<int>>, readSeq: nat,
                       done: set<nat>, freed: set<nat>, handed: seq<Handed>)

  datatype System = System(ring: Ring, producers: seq<Producer>, consumers: seq<Consumer>)

  datatype ProducerOp =
    | Claim(items: seq<seq<int>>)
    | RoomOk
    | SlotOk
    | TryBegin(item: seq<int>)
    | TryRoomOk
    | TrySlotOk
    | CasOk
    | GiveUp
    | WriteWord
    | NextSlot
    | StartCommit
    | CommitOne
    | Finish

  datatype ConsumerOp =
    | PeekBegin
    | PeekMore
    | PeekCas
    | Restart
    | WasteOne
    | WasteEnd
    | TakeBegin
    | TakeSee
    | CopyWord
    | TakeCas

  datatype Step = ByProducer(p: nat, op: ProducerOp) | ByConsumer(c: nat, cop: ConsumerOp)

  predicate Ready(r: Ring, u: nat) { |r.slots| > 0 && r.slots[u % |r.slots|].tag == None }

  predicate AllWide(r: Ring, items: seq<seq<int>>) { forall i :: 0 <= i < |items| ==> |items[i]| == r.width }

  predicate ProducerEnabled(r: Ring, x: Producer, op: ProducerOp)
  {
    match op
    case Claim(items) => x == Idle && |items| >= 1 && AllWide(r, items)
    case RoomOk => x.WaitRoom? && x.s + |x.items| <= r.cap + r.readSeq
    case SlotOk => x.WaitSlots? && x.i < |x.items| && Ready(r, x.s + x.i)
    case TryBegin(item) => x == Idle && |item| == r.width
    case TryRoomOk => x.TryRoom? && x.s < r.cap + r.readSeq
    case TrySlotOk => x.TrySlot? && Ready(r, x.s)
    case CasOk => x.TryCas? && |r.log| == x.s
    case GiveUp => (x.TryRoom? && x.s >= r.cap + r.readSeq) || (x.TrySlot? && !Ready(r, x.s)) || x.TryCas?
    case WriteWord => x.Writing? && x.k < |x.items| && x.w < |x.items[x.k]|
    case NextSlot => x.Writing? && x.k < |x.items| && x.w == |x.items[x.k]|
    case StartCommit => (x.Writing? && x.k == |x.items|)
    case CommitOne => x.Committing? && x.k < |x.items|
    case Finish => x.Committing? && x.k == |x.items|
  }

  function ProducerMove(r: Ring, x: Producer, op: ProducerOp): Producer
    requires ProducerEnabled(r, x, op)
  {
    match op
    case Claim(items) => WaitRoom(items, |r.log|)
    case RoomOk => WaitSlots(x.items, x.s, 0)
    case SlotOk => if x.i + 1 == |x.items| then Writing(x.items, x.s, 0, 0) else WaitSlots(x.items, x.s, x.i + 1)
    case TryBegin(item) => TryRoom(item, |r.log|)
    case TryRoomOk => TrySlot(x.item, x.s)
    case TrySlotOk => TryCas(x.item, x.s)
    case CasOk => Writing([x.item], x.s, 0, 0)
    case GiveUp => Idle
    case WriteWord => Writing(x.items, x.s, x.k, x.w + 1)
    case NextSlot => Writing(x.items, x.s, x.k + 1, 0)
    case StartCommit => Committing(x.items, x.s, 0)
    case CommitOne => Committing(x.items, x.s, x.k + 1)
    case Finish => Idle
  }

  function SetWord(slot: Slot, w: nat, v: int): Slot
  {
    if w < |slot.words| then slot.(words := slot.words[w := v]) else slot
  }

  function ProducerEffect(r: Ring, x: Producer, op: ProducerOp): Ring
    requires ProducerEnabled(r, x, op) && |r.slots| > 0
  {
    match op
    case Claim(items) => r.(log := r.log + items)
    case CasOk => r.(log := r.log + [x.item])
    case WriteWord =>
      var i := (x.s + x.k) % |r.slots|;
      r.(slots := r.slots[i := SetWord(r.slots[i], x.w, x.items[x.k][x.w])])
    case CommitOne =>
      var u := x.s + x.k;
      r.(slots := r.slots[u % |r.slots| := r.slots[u % |r.slots|].(tag := Some(u))], done := r.done + {u})
    case _ => r
  }

  predicate ConsumerEnabled(r: Ring, y: Consumer, op: ConsumerOp)
  {
    |r.slots| > 0 &&
    match op
    case PeekBegin => y == Free
    case PeekMore => y.Scan? && r.slots[y.e % |r.slots|].tag == Some(y.e)
    case PeekCas => y.Scan? && r.readSeq == y.b
    case Restart => y.Scan? || y.Copy?
    case WasteOne => y.Hold? && y.w < y.e
    case WasteEnd => y.Hold? && y.w == y.e
    case TakeBegin => y == Free
    case TakeSee => y.Copy? && !y.seen && r.slots[y.s % |r.slots|].tag == Some(y.s)
    case CopyWord => y.Copy? && y.seen && |y.copied| < r.width && |y.copied| < |r.slots[y.s % |r.slots|].words|
    case TakeCas => y.Copy? && y.seen && |y.copied| == r.width && r.readSeq == y.s
  }

  function ConsumerMove(r: Ring, y: Consumer, op: ConsumerOp): Consumer
    requires ConsumerEnabled(r, y, op)
  {
    match op
    case PeekBegin => Scan(r.readSeq, r.readSeq)
    case PeekMore => Scan(y.b, y.e + 1)
    case PeekCas => Hold(y.b, y.e, y.b)
    case Restart => Free
    case WasteOne => Hold(y.b, y.e, y.w + 1)
    case WasteEnd => Free
    case TakeBegin => Copy(r.readSeq, false, [])
    case TakeSee => Copy(y.s, true, [])
    case CopyWord => Copy(y.s, true, y.copied + [r.slots[y.s % |r.slots|].words[|y.copied|]])
    case TakeCas => Hold(y.s, y.s + 1, y.s)
  }

  function ConsumerEffect(r: Ring, c: nat, y: Consumer, op: ConsumerOp): Ring
    requires ConsumerEnabled(r, y, op)
  {
    match op
    case PeekCas => r.(readSeq := y.e, handed := r.handed + [Handed(c, y.b, y.e, None)])
    case TakeCas => r.(readSeq := y.s + 1, handed := r.handed + [Handed(c, y.s, y.s + 1, Some(y.copied))])
    case WasteOne =>
      r.(slots := r.slots[y.w % |r.slots| := r.slots[y.w % |r.slots|].(tag := None)], freed := r.freed + {y.w})
    case _ => r
  }

  ghost predicate Next(m: System, st: Step, m': System)
  {
    match st
    case ByProducer(p, op) =>
      && p < |m.producers| && |m.ring.slots| > 0 && ProducerEnabled(m.ring, m.producers[p], op)
      && m'.ring == ProducerEffect(m.ring, m.producers[p], op) && m'.consumers == m.consumers
      && m'.producers == m.producers[p := ProducerMove(m.ring, m.producers[p], op)]
    case ByConsumer(c, cop) =>
      && c < |m.consumers| && ConsumerEnabled(m.ring, m.consumers[c], cop)
      && m'.ring == ConsumerEffect(m.ring, c, m.consumers[c], cop) && m'.producers == m.producers
      && m'.consumers == m.consumers[c := ConsumerMove(m.ring, m.consumers[c], cop)]
  }

  ghost predicate Empty(r: Ring)
  {
    && r.cap > 0 && |r.slots| == r.cap && r.log == [] && r.readSeq == 0
    && r.done == {} && r.freed == {} && r.handed == []
    && forall i :: 0 <= i < |r.slots| ==> r.slots[i].tag == None && |r.slots[i].words| == r.width
  }

  ghost predicate Initial(m: System)
  {
    && Empty(m.ring)
    && (forall p :: 0 <= p < |m.producers| ==> m.producers[p] == Idle)
    && (forall c :: 0 <= c < |m.consumers| ==> m.consumers[c] == Free)
  }

  ghost predicate Run(ms: seq<System>, sts: seq<Step>)
  {
    && |ms| == |sts| + 1 && Initial(ms[0])
    && forall i :: 0 <= i < |sts| ==> Next(ms[i], sts[i], ms[i + 1])
  }
}
