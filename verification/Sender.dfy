/**
 * The sending end as a state machine. One `Sender` (ring, multicast and backup cursors) serves any
 * number of `Link`s; a link is a backup connection together with the receiver at its other end.
 */
module Sender {
  import opened Common
  import opened Messages
  import opened Receiver

  /** Entries picked for the next datagram but not sent yet: `waste` ring entries, or control items. */
  datatype Batch = NoBatch | Batch(waste: nat, ads: bool, alert: bool)

  datatype Cleanup = Cleanup(s: nat, att: nat)

  /** `log` is every entry ever put, by sequence; `slots` is the ring memory that holds the recent ones. */
  datatype Sender = Sender(
    cap: nat, replay: nat,
    log: seq<Entry>, slots: seq<Entry>, visible: nat,
    rs0: nat, rs1: nat, leastIt: nat,
    batch: Batch, alertSeq: nat,
    cleanup: seq<Cleanup>, released: seq<Cleanup>, queued: seq<Cleanup>,
    net: set<seq<UdpItem>>, stopped: bool)

  datatype Request = Request(s: nat, len: nat)

  /** Frames handed over for sending but not yet taken by the kernel: ring entries [from, to). */
  datatype Relic = NoRelic | Relic(from: nat, to: nat)

  datatype Link = Link(
    alive: bool, connected: bool, ready: bool,
    bufItNext: nat, relic: Relic, queue: seq<Request>, clientSubs: set<Tag>,
    up: seq<Command>, down: seq<TcpItem>,
    recv: Recv, held: seq<UdpItem>)

  function Initial(cap: nat, replay: nat, blank: Entry): Sender
    requires cap > 0
  {
    Sender(cap, replay, [], seq(cap, _ => blank), 0, 0, 0, SEQ_MAX, NoBatch, 0, [], [], [], {}, false)
  }

  // ---- producers ------------------------------------------------------------------------------

  /** Ring memory after the claimed slots from sequence `s` on are filled with `items`. */
  function Fill(slots: seq<Entry>, s: nat, items: seq<Entry>): (r: seq<Entry>)
    requires |slots| > 0
    ensures |r| == |slots|
    decreases |items|
  {
    if items == [] then slots else Fill(slots[s % |slots| := items[0]], s + 1, items[1..])
  }

  /** One plain message, or a whole attachment train claimed at once: head, segments, message. */
  predicate Puttable(items: seq<Entry>)
  {
    || (|items| == 1 && items[0].msg.tag != START_TAG && items[0].msg.tag != SEG_TAG)
    || (&& |items| >= 2
        && items[0].msg.tag == START_TAG && items[0].segCount == |items| - 2
        && (forall i :: 1 <= i < |items| - 1 ==> items[i].msg.tag == SEG_TAG)
        && items[|items| - 1].msg.tag != START_TAG && items[|items| - 1].msg.tag != SEG_TAG)
  }

  /** `low` is what the producer's scan for the smallest cursor came up with: a value one of the two has, or had. */
  predicate CanPut(x: Sender, items: seq<Entry>, low: nat)
  {
    && Puttable(items)
    && low <= Max(x.rs0, x.rs1) && |x.log| + |items| <= x.cap + low
    && |x.log| + |items| < WIRE_SEQ_MAX
  }

  function Put(x: Sender, items: seq<Entry>): Sender
    requires |x.slots| > 0
  {
    x.(log := x.log + items, slots := Fill(x.slots, |x.log|, items))
  }

  // ---- multicast (hmbdc/tips/rmcast/McSendTransport.hpp) --------------------------------------

  /** Queue entries for the trains whose heads lie in [from, to). */
  function TrainEnds(log: seq<Entry>, from: nat, upto: nat): seq<Cleanup>
    requires from <= upto <= |log|
    decreases upto
  {
    if from == upto then []
    else
      var rest := TrainEnds(log, from, upto - 1);
      var e := log[upto - 1];
      if e.msg.tag == START_TAG then rest + [Cleanup(upto - 1 + e.segCount + 1, e.att)] else rest
  }

  predicate CanBuild(x: Sender, k: nat, ads: bool, alert: bool)
  {
    && x.batch == NoBatch
    && x.rs0 + k <= x.visible
    && (k > 0 ==> !ads && !alert)
  }

  /** Picks the next batch; the alert goes out only when the batch holds no ring entry. */
  function Build(x: Sender, k: nat, ads: bool, alert: bool): Sender
    requires CanBuild(x, k, ads, alert) && x.visible <= |x.log|
  {
    var ends := TrainEnds(x.log, x.rs0, x.rs0 + k);
    x.(batch := Batch(k, ads, alert),
       cleanup := x.cleanup + ends, queued := x.queued + ends,
       alertSeq := if k > 0 then x.rs0 + k else x.alertSeq)
  }

  /** The datagram: read from the ring memory at the moment of sending. */
  function Datagram(x: Sender): seq<UdpItem>
    requires x.batch.Batch? && |x.slots| > 0
  {
    (if x.batch.ads then [Ad] else [])
    + seq(x.batch.waste, i requires 0 <= i => Data(x.rs0 + i, x.slots[(x.rs0 + i) % |x.slots|].msg))
    + (if x.batch.alert then [Alert(x.alertSeq)] else [])
  }

  function Multicast(x: Sender): Sender
    requires x.batch.Batch? && |x.slots| > 0
  {
    x.(net := x.net + {Datagram(x)}, rs0 := x.rs0 + x.batch.waste, batch := NoBatch)
  }

  /** Without any session the visible entries are thrown away. */
  predicate CanSkip(x: Sender, k: nat) { x.batch == NoBatch && x.rs0 + k <= x.visible }

  function Skip(x: Sender, k: nat): Sender { x.(rs0 := x.rs0 + k) }

  // ---- retention (hmbdc/tips/reliable/BackupSendServerT.hpp) ----------------------------------

  /** `least` is the smallest of the multicast cursor and the live sessions' `bufItNext`. */
  predicate IsLeast(x: Sender, links: map<nat, Link>, least: nat)
  {
    && least <= x.rs0
    && (forall id :: id in links && links[id].alive ==> least <= links[id].bufItNext)
    && (least == x.rs0 || exists id :: id in links && links[id].alive && links[id].bufItNext == least)
  }

  function NewSeq(least: nat, replay: nat): nat { if replay < least then least - replay else 0 }

  /** How many queue entries lie strictly below `bound`, counted from the front. */
  function Expired(q: seq<Cleanup>, bound: nat): (n: nat)
    ensures n <= |q|
    ensures forall i :: 0 <= i < n ==> q[i].s < bound
    ensures n < |q| ==> q[n].s >= bound
  {
    if q == [] || q[0].s >= bound then 0 else 1 + Expired(q[1..], bound)
  }

  function Retain(x: Sender, least: nat): Sender
  {
    var newSeq := NewSeq(least, x.replay);
    if x.leastIt == newSeq then x
    else
      var n := Expired(x.cleanup, newSeq);
      x.(leastIt := newSeq, rs1 := Max(x.rs1, newSeq),
         cleanup := x.cleanup[n..], released := x.released + x.cleanup[..n])
  }

  /** The end: whatever is still queued is released. */
  function Halt(x: Sender): Sender { x.(cleanup := [], released := x.released + x.cleanup, stopped := true) }

  // ---- sessions (hmbdc/tips/reliable/BackupSendSessionT.hpp) ----------------------------------

  /** Accepting a connection: the session starts where the backup cursor is, and says so. */
  function NewLink(x: Sender, subs: set<Tag>): Link
  {
    Link(true, false, false, x.rs1, NoRelic, [], {}, [], [StartSeq(x.rs1)], Receiver.Fresh(subs), [])
  }

  function FrameOf(subs: set<Tag>, e: Entry): TcpItem
  {
    if Resends(subs, e) then Item(e.msg) else Flush
  }

  /** Frames for the ring entries [from, to), read from the ring memory. */
  function Frames(slots: seq<Entry>, subs: set<Tag>, from: nat, to: nat): (r: seq<TcpItem>)
    requires |slots| > 0 && from <= to
    ensures |r| == to - from
    ensures forall i :: 0 <= i < to - from ==> r[i] == FrameOf(subs, slots[(from + i) % |slots|])
  {
    seq(to - from, i requires 0 <= i => FrameOf(subs, slots[(from + i) % |slots|]))
  }

  /** The ring that queues requests forgets its oldest entry when full. */
  function PushRequest(q: seq<Request>, r: Request, cap: nat): seq<Request>
  {
    if |q| >= cap && |q| > 0 then q[1..] + [r] else q + [r]
  }

  /** The sender refuses a request it cannot serve and closes the connection. */
  predicate BadRequest(x: Sender, l: Link, r: Request)
  {
    r.s < l.bufItNext || r.len > x.cap || r.s + r.len > x.rs0
  }

  datatype LinkOp =
    | Drop
    | ReadCommand
    | FlushRelic(t: nat)
    | Serve(k: nat, t: nat)
    | Connect(order: seq<Tag>)
    | TakeTcp
    | ReceiveDatagram(d: seq<UdpItem>)
    | PresentUdp
    | TimerTick
    | Refresh(order: seq<Tag>)

  ghost predicate Lists(order: seq<Tag>, subs: set<Tag>) { forall t :: t in subs <==> t in order }

  function Subscriptions(order: seq<Tag>): seq<Command>
  {
    seq(|order|, i requires 0 <= i < |order| => Subscribe(order[i])) + [AllSent]
  }

  function RelicSize(r: Relic): nat { if r.Relic? && r.from <= r.to then r.to - r.from else 0 }

  ghost predicate Enabled(x: Sender, l: Link, op: LinkOp)
  {
    && |l.recv.arb.j| == 2 && |x.slots| > 0
    && match op
       case Drop => l.alive
       case ReadCommand => l.alive && l.up != []
       case FlushRelic(t) => l.alive && l.relic.Relic? && l.relic.from + t <= l.relic.to
       case Serve(k, t) =>
         && l.alive && l.relic == NoRelic && l.queue != []
         && (!BadRequest(x, l, l.queue[0]) && l.queue[0].len > 0 ==> 1 <= k <= l.queue[0].len && t <= k)
       case Connect(order) => !l.connected && Lists(order, l.recv.subs)
       case TakeTcp => l.connected && l.down != []
       case ReceiveDatagram(d) => l.held == [] && d in x.net
       case PresentUdp => l.held != []
       case TimerTick => l.connected
       case Refresh(order) => l.connected && Lists(order, l.recv.subs)
  }

  /** What the sender keeps of a session's commands; `ok` turns false when the connection is given up. */
  datatype Ear = Ear(subs: set<Tag>, ready: bool, queue: seq<Request>, ok: bool)

  /** One command, as `doRead` handles it. */
  function Obey1(e: Ear, c: Command, cap: nat): Ear
  {
    match c
    case Subscribe(t) => e.(subs := e.subs + {t})
    case AllSent => e.(ready := true)
    case Report(s, n) => e.(queue := PushRequest(e.queue, Request(s, n), cap))
  }

  function Command1(x: Sender, l: Link): Link
    requires l.up != []
  {
    var e := Obey1(Ear(l.clientSubs, l.ready, l.queue, true), l.up[0], x.cap);
    l.(up := l.up[1..], clientSubs := e.subs, ready := e.ready, queue := e.queue)
  }

  function FlushRelic1(x: Sender, l: Link, t: nat): Link
    requires l.relic.Relic? && l.relic.from + t <= l.relic.to && |x.slots| > 0
  {
    var l1 := l.(down := l.down + Frames(x.slots, l.clientSubs, l.relic.from, l.relic.from + t));
    if l.relic.from + t == l.relic.to
    then l1.(relic := NoRelic, bufItNext := l.relic.to)
    else l1.(relic := Relic(l.relic.from + t, l.relic.to))
  }

  /** Serves the oldest request: `k` frames are handed over, the kernel takes the first `t` of them. */
  function Serve1(x: Sender, l: Link, k: nat, t: nat): Link
    requires l.queue != [] && |x.slots| > 0
    requires l.queue[0].len > 0 ==> 1 <= k <= l.queue[0].len && t <= k
  {
    var r := l.queue[0];
    if r.len == 0 then l.(bufItNext := r.s, queue := l.queue[1..])
    else
      var q := if k == r.len then l.queue[1..] else [Request(r.s + k, r.len - k)] + l.queue[1..];
      var l1 := l.(queue := q, down := l.down + Frames(x.slots, l.clientSubs, r.s, r.s + t));
      if t == k then l1.(bufItNext := r.s + k) else l1.(relic := Relic(r.s + t, r.s + k))
  }

  function Present1(l: Link): Link
    requires l.held != [] && |l.recv.arb.j| == 2
  {
    var z := Receiver.Accept(l.recv, l.held[0]);
    l.(recv := z.recv, up := l.up + z.sent, held := if z.code == 0 then l.held else l.held[1..])
  }

  function TakeTcp1(l: Link): Link
    requires l.down != [] && |l.recv.arb.j| == 2
  {
    var z := Receiver.TakeFrame(l.recv, l.down[0]);
    l.(recv := z.recv, up := l.up + z.sent, down := l.down[1..])
  }

  function Apply(x: Sender, l: Link, op: LinkOp): Link
    requires Enabled(x, l, op)
  {
    match op
    case Drop => l.(alive := false)
    case ReadCommand => Command1(x, l)
    case FlushRelic(t) => FlushRelic1(x, l, t)
    case Serve(k, t) =>
      if BadRequest(x, l, l.queue[0]) then l.(alive := false) else Serve1(x, l, k, t)
    case Connect(order) => l.(connected := true, up := Subscriptions(order))
    case TakeTcp => TakeTcp1(l)
    case ReceiveDatagram(d) => l.(held := d)
    case PresentUdp => Present1(l)
    case TimerTick =>
      var (r, sent) := Receiver.Tick(l.recv);
      l.(recv := r, up := l.up + sent)
    case Refresh(order) => l.(up := l.up + Subscriptions(order))
  }

  ghost function LinkStep(x: Sender): (Link, LinkOp, Link) -> bool
  {
    (l, op, l') => Enabled(x, l, op) && l' == Apply(x, l, op)
  }

  /** The link after performing `ops` one after the other, if each can be performed. */
  ghost predicate Performs(x: Sender, l: Link, ops: seq<LinkOp>, l': Link) { Leads(LinkStep(x), l, ops, l') }

  // ---- the whole system -----------------------------------------------------------------------

  datatype System = System(snd: Sender, links: map<nat, Link>)

  datatype Step =
    | StepPut(items: seq<Entry>, low: nat)
    | StepExpose
    | StepBuild(k: nat, ads: bool, alert: bool)
    | StepMulticast
    | StepSkip(k: nat)
    | StepRetain(least: nat)
    | StepAccept(id: nat, subs: set<Tag>)
    | StepLink(id: nat, op: LinkOp)
    | StepStop

  /** What the receiving end does, also when the other end has stopped. */
  predicate ByReceiver(op: LinkOp)
  {
    op.TakeTcp? || op.ReceiveDatagram? || op.PresentUdp? || op.TimerTick? || op.Refresh?
  }

  ghost predicate Next(y: System, step: Step, z: System)
  {
    var x := y.snd;
    && |x.slots| > 0 && x.visible <= |x.log|
    && (x.stopped ==> step.StepLink? && ByReceiver(step.op))
    && match step
       case StepPut(items, low) => CanPut(x, items, low) && z == y.(snd := Put(x, items))
       case StepExpose => x.visible < |x.log| && z == y.(snd := x.(visible := x.visible + 1))
       case StepBuild(k, ads, alert) => CanBuild(x, k, ads, alert) && z == y.(snd := Build(x, k, ads, alert))
       case StepMulticast => x.batch.Batch? && z == y.(snd := Multicast(x))
       case StepSkip(k) =>
         && CanSkip(x, k) && (forall id :: id in y.links ==> !y.links[id].alive)
         && z == y.(snd := Skip(x, k))
       case StepRetain(least) => IsLeast(x, y.links, least) && z == y.(snd := Retain(x, least))
       case StepAccept(id, subs) =>
         && id !in y.links && START_TAG in subs && SEG_TAG in subs
         && z == y.(links := y.links[id := NewLink(x, subs)])
       case StepLink(id, op) =>
         && id in y.links && Enabled(x, y.links[id], op)
         && z == y.(links := y.links[id := Apply(x, y.links[id], op)])
       case StepStop => z == y.(snd := Halt(x))
  }

  /** A run: the states passed through, from an empty sender without sessions, and the steps between them. */
  ghost predicate Run(states: seq<System>, steps: seq<Step>)
  {
    && |states| == |steps| + 1
    && (exists cap, replay, blank :: cap > 0 && states[0] == System(Initial(cap, replay, blank), map[]))
    && (forall i :: 0 <= i < |steps| ==> Next(states[i], steps[i], states[i + 1]))
  }

  /** What is put fits behind both cursors, as it does when the scan came up with no more than the smaller one. */
  predicate ClearPut(x: Sender, step: Step)
  {
    step.StepPut? ==> |x.log| + |step.items| <= x.cap + Min(x.rs0, x.rs1)
  }

  /** A run in which no scan lets a producer in too early. */
  ghost predicate ClearRun(states: seq<System>, steps: seq<Step>)
  {
    Run(states, steps) && forall i :: 0 <= i < |steps| ==> ClearPut(states[i].snd, steps[i])
  }
}
