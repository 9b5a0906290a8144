/** The receiving end of a reliable session: hmbdc/tips/reliable/BackupRecvSessionT.hpp. */
module Receiver {
  import opened Common
  import opened Messages
  import SeqArb

  /** What the multicast brings. An advertisement never reaches the session. */
  datatype UdpItem = Data(s: nat, msg: Msg) | Alert(expectSeq: nat) | Ad

  /** What the backup connection brings: first the start sequence, then messages or empty flushes. */
  datatype TcpItem = StartSeq(minSeq: nat) | Item(msg: Msg) | Flush

  /** What the receiver writes on the backup connection. */
  datatype Command = Subscribe(tag: Tag) | AllSent | Report(s: nat, len: nat)

  datatype Recv = Recv(subs: set<Tag>, minSeq: nat, arb: SeqArb.Arb, gapPending: bool, gapPendingSeq: nat, output: seq<Msg>)

  /** `code` is the source's return value; `gap` > 0 says that the "impossible" callback ran. */
  datatype Reaction = Reaction(recv: Recv, code: int, sent: seq<Command>, gap: nat)

  function Fresh(subs: set<Tag>): Recv
  {
    Recv(subs, SEQ_MAX, SeqArb.Arb(SEQ_MAX, [0, 0]), false, 0, [])
  }

  function SendGapReport(r: Recv, miss: nat, len: nat): (Recv, seq<Command>)
  {
    if !r.gapPending && miss != SEQ_MAX then
      (if len != 0 then r.(gapPending := true, gapPendingSeq := miss + len - 1) else r, [Report(miss, len)])
    else (r, [])
  }

  /** `arb` for an item that carries sequence `s`. */
  function ArbSeq(r: Recv, part: nat, s: nat): Reaction
    requires part < |r.arb.j|
  {
    if r.gapPending && part == 0 then Reaction(r, 0, [], 0)
    else
      var a := SeqArb.Arbitrate(r.arb, part, s);
      var r1 := r.(arb := a.arb);
      if a.code == 0 then
        var len := if a.arb.expecting <= SEQ_MAX then Minus64(s, a.arb.expecting) else 0;
        var (r2, sent) := SendGapReport(r1, a.arb.expecting, len);
        Reaction(r2, 0, sent, a.gap)
      else
        Reaction(if s == r.gapPendingSeq then r1.(gapPending := false) else r1, a.code, [], a.gap)
  }

  /** `arb` for a sequence alert. */
  function ArbAlert(r: Recv, next: nat): Reaction
  {
    if r.gapPending then Reaction(r, 0, [], 0)
    else if r.arb.expecting < next then
      var (r1, sent) := SendGapReport(r, r.arb.expecting, next - r.arb.expecting);
      Reaction(r1, -1, sent, 0)
    else Reaction(r, -1, [], 0)
  }

  /** `accept`: one multicast item. Code 0 asks the caller to present the same item again. */
  function Accept(r: Recv, item: UdpItem): Reaction
    requires |r.arb.j| == 2
  {
    match item
    case Data(s, m) =>
      var x := ArbSeq(r, 0, s);
      if x.code == 1 && UdpPasses(r.subs, m)
      then x.(recv := x.recv.(output := x.recv.output + [m])) else x
    case Alert(next) => ArbAlert(r, next)
    case Ad => Reaction(r, 1, [], 0)
  }

  /** One frame of the backup connection. It carries no sequence: whatever is expected is ticked off. */
  function TakeFrame(r: Recv, f: TcpItem): Reaction
    requires |r.arb.j| == 2
  {
    match f
    case StartSeq(m) => Reaction(r.(minSeq := m, arb := r.arb.(expecting := m)), 1, [], 0)
    case Item(m) => Punch(if m.tag in r.subs then r.(output := r.output + [m]) else r)
    case Flush => Punch(r)
  }

  /** `arb` for whatever is expected; an unset arbiter takes no notice. */
  function Punch(r: Recv): Reaction
    requires |r.arb.j| == 2
  {
    if r.arb.expecting == SEQ_MAX then Reaction(r, 1, [], 0) else ArbSeq(r, 1, r.arb.expecting)
  }

  /** The periodic report: how far the receiver got. */
  function Tick(r: Recv): (Recv, seq<Command>)
  {
    SendGapReport(r, r.arb.expecting, 0)
  }
}
