/**
 * The two-endpoint invariant behind gap recovery. Where everything is (`LinkInv`) holds in every run; what the
 * frames and the output are (`Contents`) depends on what the sender reads from its ring.
 */
module Invariants {
  import opened Common
  import opened Messages
  import opened Receiver
  import opened Sender
  import opened Requests

  // ---- the sender -----------------------------------------------------------------------------

  ghost predicate Bounds(x: Sender)
  {
    && x.cap > 0 && |x.slots| == x.cap
    && x.rs1 <= x.rs0 <= x.visible <= |x.log| <= x.cap + x.rs0
    && |x.log| < WIRE_SEQ_MAX
  }

  /** The last entries, as many as there are slots, are in the ring memory. */
  ghost predicate Intact(x: Sender)
    requires |x.slots| > 0
  {
    forall s: nat :: s < |x.log| <= s + x.cap ==> x.slots[s % |x.slots|] == x.log[s]
  }

  /** Every entry from the backup cursor on is among them. */
  ghost predicate HasRoom(x: Sender) { |x.log| <= x.cap + x.rs1 }

  ghost predicate RingInv(x: Sender) { Bounds(x) && Intact(x) }

  function Picked(x: Sender): nat { if x.batch.Batch? then x.batch.waste else 0 }

  ghost predicate BatchInv(x: Sender)
  {
    && x.rs0 + Picked(x) <= x.visible
    && x.alertSeq <= x.rs0 + Picked(x)
    && (x.batch.Batch? && x.batch.alert ==> x.batch.waste == 0)
  }

  /** Everything the multicast ever carries is true of the log and was sent before. */
  ghost predicate Known(x: Sender, item: UdpItem)
  {
    match item
    case Data(s, m) => s < x.rs0 && s < |x.log| && m == x.log[s].msg
    case Alert(n) => n <= x.rs0
    case Ad => true
  }

  ghost predicate AllKnown(x: Sender, items: seq<UdpItem>)
  {
    forall i :: 0 <= i < |items| ==> Known(x, items[i])
  }

  ghost predicate NetInv(x: Sender) { forall d :: d in x.net ==> AllKnown(x, d) }

  // ---- what a receiver has output -------------------------------------------------------------

  /**
   * `out` is what a receiver with subscriptions `subs` makes of the entries `es`: every entry the sender
   * would resend, in order, and besides only stray segments.
   */
  ghost predicate Delivered(out: seq<Msg>, es: seq<Entry>, subs: set<Tag>)
    decreases |es|
  {
    if es == [] then out == []
    else
      var last, init := es[|es| - 1], es[..|es| - 1];
      || (&& (Resends(subs, last) || Stray(subs, last))
          && out != [] && out[|out| - 1] == last.msg && Delivered(out[..|out| - 1], init, subs))
      || (!Resends(subs, last) && Delivered(out, init, subs))
  }

  // ---- one link -------------------------------------------------------------------------------

  /** One past the last sequence the receiver waits for on the backup connection. */
  function Hi(r: Recv): nat { if r.gapPending then r.gapPendingSeq + 1 else r.arb.expecting }

  /** The connection is open but the start sequence has not been read. */
  ghost predicate Waiting(x: Sender, l: Link)
    requires |l.recv.arb.j| == 2
  {
    && !l.recv.gapPending && l.recv.output == [] && l.recv.arb.j[1] == 0
    && |l.down| == 1 && l.down[0].StartSeq? && l.down[0].minSeq <= x.rs0
  }

  /** The k-th frame under way is the answer for sequence `expecting + k`, although it does not say so. */
  ghost predicate FramesInOrder(x: Sender, l: Link)
  {
    var e := l.recv.arb.expecting;
    && e + |l.down| <= |x.log|
    && forall k :: 0 <= k < |l.down| ==> l.down[k] == FrameOf(l.recv.subs, x.log[e + k])
  }

  predicate NoStart(down: seq<TcpItem>) { forall k :: 0 <= k < |down| ==> !down[k].StartSeq? }

  ghost predicate Started(x: Sender, l: Link)
    requires |l.recv.arb.j| == 2
  {
    var e := l.recv.arb.expecting;
    && l.connected
    && l.recv.minSeq <= e && e + |l.down| <= Hi(l.recv) <= x.rs0 <= |x.log|
    && (l.recv.gapPending ==> e < Hi(l.recv))
    && l.recv.arb.j[1] <= e
    && NoStart(l.down)
  }

  /** The frames under way are the right ones, and so is what the receiver has output. */
  ghost predicate Contents(x: Sender, l: Link)
  {
    var r, e := l.recv, l.recv.arb.expecting;
    e != SEQ_MAX ==> r.minSeq <= e && FramesInOrder(x, l) && Delivered(r.output, x.log[r.minSeq..e], r.subs)
  }

  ghost predicate RecvInv(x: Sender, l: Link)
  {
    && |l.recv.arb.j| == 2
    && START_TAG in l.recv.subs && SEG_TAG in l.recv.subs
    && AllKnown(x, l.held)
    && if l.recv.arb.expecting == SEQ_MAX then Waiting(x, l) else Started(x, l)
  }

  /** The first sequence neither received nor handed to the connection. */
  function Frontier(l: Link): nat { l.recv.arb.expecting + |l.down| + RelicSize(l.relic) }

  /** The sender's progress once what it has handed over is gone. */
  function Progress(l: Link): nat { if l.relic.Relic? then l.relic.to else l.bufItNext }

  ghost predicate Pending(l: Link)
  {
    Chain(Progress(l), l.queue + Reports(l.up), Frontier(l), Hi(l.recv))
  }

  ghost predicate SendStarted(l: Link)
  {
    && l.bufItNext <= l.recv.arb.expecting + |l.down|
    && (l.relic.Relic? ==> l.relic.from == l.recv.arb.expecting + |l.down| && l.relic.from < l.relic.to)
    && Pending(l)
  }

  ghost predicate SendWaiting(l: Link)
  {
    && l.queue == [] && l.relic == NoRelic && Reports(l.up) == []
    && |l.down| == 1 && l.down[0] == StartSeq(l.bufItNext)
  }

  ghost predicate SubsInv(l: Link)
  {
    && (if l.connected then SubsOwed(l.clientSubs, l.up, l.recv.subs) else l.up == [] && l.clientSubs == {})
    && (l.queue != [] || l.relic.Relic? ==> l.clientSubs == l.recv.subs)
  }

  ghost predicate SendInv(x: Sender, l: Link)
  {
    && x.rs1 <= l.bufItNext <= x.rs0
    && SubsInv(l)
    && if l.recv.arb.expecting == SEQ_MAX then SendWaiting(l) else SendStarted(l)
  }

  ghost predicate LinkInv(x: Sender, l: Link)
  {
    RecvInv(x, l) && (l.alive ==> SendInv(x, l))
  }

  // ---- what the sender reads ------------------------------------------------------------------

  /** The entries whose frames a step hands to the connection: `n` of them, from `from` on. */
  function ReadFrom(x: Sender, l: Link, op: LinkOp): nat
  {
    match op
    case FlushRelic(_) => if l.relic.Relic? then l.relic.from else 0
    case Serve(_, _) => if l.queue != [] then l.queue[0].s else 0
    case _ => 0
  }

  function ReadCount(x: Sender, l: Link, op: LinkOp): nat
  {
    match op
    case FlushRelic(t) => t
    case Serve(_, t) => if l.queue != [] && !BadRequest(x, l, l.queue[0]) && l.queue[0].len > 0 then t else 0
    case _ => 0
  }

  /** Each of them is still the one that was put, as far as its frame goes. */
  ghost predicate ReadsRight(x: Sender, l: Link, op: LinkOp)
  {
    forall s :: ReadFrom(x, l, op) <= s < ReadFrom(x, l, op) + ReadCount(x, l, op) ==>
      |x.slots| > 0 && s < |x.log| && FrameOf(l.clientSubs, x.slots[s % |x.slots|]) == FrameOf(l.clientSubs, x.log[s])
  }

  // ---- what a link does by itself -------------------------------------------------------------

  lemma Prepend(x: Sender, l: Link, op: LinkOp, ops: seq<LinkOp>, l': Link)
    requires Enabled(x, l, op) && Performs(x, Apply(x, l, op), ops, l')
    ensures Performs(x, l, [op] + ops, l')
  {
    LeadsFrom(LinkStep(x), l, op, Apply(x, l, op), ops, l');
  }

  lemma FirstOp(x: Sender, l: Link, ops: seq<LinkOp>, l': Link)
    requires Performs(x, l, ops, l') && ops != []
    ensures Enabled(x, l, ops[0]) && Performs(x, Apply(x, l, ops[0]), ops[1..], l')
  {
    var m :| LinkStep(x)(l, ops[0], m) && Leads(LinkStep(x), m, ops[1..], l');
  }
}
