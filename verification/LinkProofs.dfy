/** Every step of one link keeps the invariant. */
module LinkProofs {
  import opened Common
  import opened Messages
  import opened Receiver
  import opened Sender
  import opened Requests
  import opened Invariants

  // ---- receiver steps -------------------------------------------------------------------------

  /** With two participants the smaller of the last presented sequences is at most either. */
  lemma LowIsLow(j: seq<nat>)
    requires |j| == 2
    ensures SeqArb.Low(j) <= j[0] && SeqArb.Low(j) <= j[1]
  {
  }

  /** The arbiter's gap callback, marked impossible in the source, is never reached. */
  lemma NoArbiterGap(x: Sender, l: Link, part: nat, s: nat)
    requires Bounds(x) && RecvInv(x, l) && part < 2
    requires part == 1 ==> l.recv.arb.expecting != SEQ_MAX && s == l.recv.arb.expecting
    requires s < SEQ_MAX
    ensures ArbSeq(l.recv, part, s).gap == 0
  {
    var a := l.recv.arb;
    if part == 0 && a.expecting != SEQ_MAX && s > a.expecting {
      LowIsLow(a.j[0 := s]);
    }
  }

  /** One more entry taken over the multicast. */
  lemma DeliverUdp(out: seq<Msg>, es: seq<Entry>, e: Entry, subs: set<Tag>)
    requires Delivered(out, es, subs) && START_TAG in subs && SEG_TAG in subs
    ensures Delivered(if UdpPasses(subs, e.msg) then out + [e.msg] else out, es + [e], subs)
  {
    var all := es + [e];
    assert all[|all| - 1] == e && all[..|all| - 1] == es;
    assert (out + [e.msg])[..|out|] == out;
  }

  /** One more entry taken from the backup connection. */
  lemma DeliverTcp(out: seq<Msg>, es: seq<Entry>, e: Entry, subs: set<Tag>)
    requires Delivered(out, es, subs)
    ensures Delivered(if Resends(subs, e) then out + [e.msg] else out, es + [e], subs)
  {
    var all := es + [e];
    assert all[|all| - 1] == e && all[..|all| - 1] == es;
    assert (out + [e.msg])[..|out|] == out;
  }

  /** What sending a report does to the requests in flight. */
  lemma SendReport(x: Sender, l: Link, len: nat, l': Link)
    requires |l.recv.arb.j| == 2 && l.recv.arb.expecting != SEQ_MAX && Started(x, l) && !l.recv.gapPending
    requires l.alive ==> SendInv(x, l)
    requires l.recv.arb.expecting + len <= x.rs0
    requires l'.up == l.up + [Report(l.recv.arb.expecting, len)]
    requires l'.recv.arb.expecting == l.recv.arb.expecting && l'.recv.subs == l.recv.subs
    requires Hi(l'.recv) == l.recv.arb.expecting + len
    requires l' == l.(up := l'.up, recv := l'.recv, held := l'.held)
    ensures l.alive ==> SendInv(x, l')
  {
    if l.alive {
      var e := l.recv.arb.expecting;
      var more := [Report(e, len)];
      assert more[1..] == [];
      assert Reports(more) == [Request(e, len)] + Reports([]);
      assert Reports(more) == [Request(e, len)];
      ReportsOfConcat(l.up, more);
      assert l.queue + Reports(l.up + more) == (l.queue + Reports(l.up)) + [Request(e, len)];
      ChainBounds(Progress(l), l.queue + Reports(l.up), Frontier(l), Hi(l.recv));
      assert l.relic == NoRelic;
      ChainReport(l.bufItNext, l.queue + Reports(l.up), e, len);
      SubsOwedConcat(l.clientSubs, l.up, more, l.recv.subs);
    }
  }

  lemma PresentKeeps(x: Sender, l: Link)
    requires Bounds(x) && LinkInv(x, l) && l.held != []
    ensures LinkInv(x, Present1(l))
  {
    var e := l.recv.arb.expecting;
    assert Known(x, l.held[0]);
    match l.held[0]
    case Ad => QuietKeeps(x, l, Present1(l));
    case Alert(n) => AlertKeeps(x, l, n);
    case Data(s, m) =>
      NoArbiterGap(x, l, 0, s);
      if e == SEQ_MAX || l.recv.gapPending || s < e { QuietKeeps(x, l, Present1(l)); }
      else if s == e { UdpHitKeeps(x, l); }
      else { UdpGapKeeps(x, l, s); }
  }

  /** A reaction that changes nothing but the item at hand and what participant 0 presented last. */
  lemma QuietKeeps(x: Sender, l: Link, l': Link)
    requires Bounds(x) && LinkInv(x, l) && l.held != []
    requires l' == l.(recv := l'.recv, held := l'.held, up := l.up + [])
    requires l'.held == l.held || l'.held == l.held[1..]
    requires |l'.recv.arb.j| == 2 && l'.recv.arb.j[1] == l.recv.arb.j[1]
    requires l'.recv == l.recv.(arb := l.recv.arb.(j := l'.recv.arb.j))
    ensures LinkInv(x, l')
  {
    assert l'.up == l.up;
    assert AllKnown(x, l'.held);
    assert l.alive ==> SubsInv(l');
  }

  lemma AlertKeeps(x: Sender, l: Link, n: nat)
    requires Bounds(x) && LinkInv(x, l) && l.held != [] && l.held[0] == Alert(n)
    ensures LinkInv(x, Present1(l))
  {
    var e := l.recv.arb.expecting;
    assert Known(x, l.held[0]);
    if !l.recv.gapPending && e < n {
      assert AllKnown(x, l.held[1..]);
      SendReport(x, l, n - e, Present1(l));
    } else {
      QuietKeeps(x, l, Present1(l));
    }
  }

  lemma UdpGapKeeps(x: Sender, l: Link, s: nat)
    requires Bounds(x) && LinkInv(x, l) && l.held != [] && l.held[0].Data? && l.held[0].s == s
    requires l.recv.arb.expecting < s && !l.recv.gapPending
    ensures LinkInv(x, Present1(l))
  {
    assert Known(x, l.held[0]);
    NoArbiterGap(x, l, 0, s);
    SendReport(x, l, s - l.recv.arb.expecting, Present1(l));
  }

  /** The receiver after the expected message has come by multicast. */
  function HitRecv(r: Recv, m: Msg): Recv
    requires |r.arb.j| == 2
  {
    var e := r.arb.expecting;
    r.(arb := SeqArb.Arb(e + 1, r.arb.j[0 := e]), output := if UdpPasses(r.subs, m) then r.output + [m] else r.output)
  }

  lemma HitValue(l: Link)
    requires |l.recv.arb.j| == 2 && l.held != [] && !l.recv.gapPending
    requires l.held[0].Data? && l.held[0].s == l.recv.arb.expecting != SEQ_MAX
    ensures Present1(l) == l.(recv := HitRecv(l.recv, l.held[0].msg), held := l.held[1..])
  {
    assert l.up + [] == l.up;
  }

  lemma HitKeepsReceiver(x: Sender, l: Link, m: Msg, l': Link)
    requires Bounds(x) && RecvInv(x, l) && l.recv.arb.expecting != SEQ_MAX && !l.recv.gapPending
    requires l.recv.arb.expecting < x.rs0
    requires l' == l.(recv := HitRecv(l.recv, m), held := l'.held) && AllKnown(x, l'.held)
    ensures RecvInv(x, l')
  {
    assert Started(x, l');
  }

  lemma HitKeepsContents(x: Sender, l: Link, m: Msg, l': Link)
    requires Bounds(x) && RecvInv(x, l) && l.recv.arb.expecting != SEQ_MAX && !l.recv.gapPending && Contents(x, l)
    requires l.recv.arb.expecting < x.rs0 && m == x.log[l.recv.arb.expecting].msg
    requires l' == l.(recv := HitRecv(l.recv, m), held := l'.held)
    ensures Contents(x, l')
  {
    var r, e := l.recv, l.recv.arb.expecting;
    DeliverUdp(r.output, x.log[r.minSeq..e], x.log[e], r.subs);
    assert x.log[r.minSeq..e] + [x.log[e]] == x.log[r.minSeq..e + 1];
    assert l'.down == [];
  }

  /** The expected message arrives by multicast. */
  lemma UdpHitReceiver(x: Sender, l: Link)
    requires Bounds(x) && RecvInv(x, l) && l.held != [] && !l.recv.gapPending
    requires l.held[0].Data? && l.held[0].s == l.recv.arb.expecting != SEQ_MAX
    ensures RecvInv(x, Present1(l)) && l.recv.arb.expecting < x.rs0
    ensures Present1(l).recv.arb.expecting == l.recv.arb.expecting + 1 && !Present1(l).recv.gapPending
    ensures Present1(l).up == l.up && Present1(l).recv.subs == l.recv.subs
  {
    assert Known(x, l.held[0]);
    assert AllKnown(x, l.held[1..]);
    HitValue(l);
    HitKeepsReceiver(x, l, l.held[0].msg, Present1(l));
  }

  lemma UdpHitKeeps(x: Sender, l: Link)
    requires Bounds(x) && LinkInv(x, l) && l.held != [] && !l.recv.gapPending
    requires l.held[0].Data? && l.held[0].s == l.recv.arb.expecting != SEQ_MAX
    ensures LinkInv(x, Present1(l))
  {
    UdpHitReceiver(x, l);
    HitValue(l);
    if l.alive { HitKeepsSender(x, l, l.held[0].msg, Present1(l)); }
  }

  lemma HitKeepsSender(x: Sender, l: Link, m: Msg, l': Link)
    requires Bounds(x) && RecvInv(x, l) && SendInv(x, l) && l.recv.arb.expecting != SEQ_MAX && !l.recv.gapPending
    requires l.recv.arb.expecting < x.rs0 && l' == l.(recv := HitRecv(l.recv, m), held := l'.held)
    ensures SendInv(x, l')
  {
    var q, e := l.queue + Reports(l.up), l.recv.arb.expecting;
    ChainBounds(Progress(l), q, Frontier(l), Hi(l.recv));
    assert l.down == [] && l.relic == NoRelic;
    ChainShift(Progress(l), q, e);
    assert SubsInv(l') && Frontier(l') == e + 1 && Hi(l'.recv) == e + 1;
  }

  lemma TakeTcpKeeps(x: Sender, l: Link)
    requires Bounds(x) && LinkInv(x, l) && l.connected && l.down != []
    ensures LinkInv(x, TakeTcp1(l))
  {
    if l.recv.arb.expecting == SEQ_MAX { TakeStartKeeps(x, l); } else { TakeFrameKeeps(x, l); }
  }

  lemma TakeStartKeeps(x: Sender, l: Link)
    requires Bounds(x) && LinkInv(x, l) && l.connected && l.down != [] && l.recv.arb.expecting == SEQ_MAX
    ensures LinkInv(x, TakeTcp1(l))
  {
    var l' := TakeTcp1(l);
    assert l'.up == l.up && l'.down == [];
    if l.alive {
      assert l.queue + Reports(l.up) == [];
      assert SubsInv(l');
    }
  }

  /** The receiver after a frame has ticked off the expected sequence. */
  function PunchRecv(r: Recv, f: TcpItem): Recv
    requires |r.arb.j| == 2
  {
    var e := r.arb.expecting;
    r.(arb := SeqArb.Arb(e + 1, r.arb.j[1 := e]),
       gapPending := r.gapPending && e != r.gapPendingSeq,
       output := if f.Item? && f.msg.tag in r.subs then r.output + [f.msg] else r.output)
  }

  lemma PunchValue(l: Link)
    requires |l.recv.arb.j| == 2 && l.down != [] && !l.down[0].StartSeq? && l.recv.arb.expecting != SEQ_MAX
    ensures TakeTcp1(l) == l.(recv := PunchRecv(l.recv, l.down[0]), down := l.down[1..])
  {
    assert l.up + [] == l.up;
  }

  lemma PunchKeepsFrames(x: Sender, l: Link, l': Link)
    requires FramesInOrder(x, l) && l.down != [] && l'.down == l.down[1..]
    requires l'.recv.arb.expecting == l.recv.arb.expecting + 1 && l'.recv.subs == l.recv.subs
    ensures FramesInOrder(x, l')
  {
    var e := l.recv.arb.expecting;
    forall k | 0 <= k < |l'.down| ensures l'.down[k] == FrameOf(l.recv.subs, x.log[e + 1 + k]) {
      assert l'.down[k] == l.down[k + 1];
      assert l.down[k + 1] == FrameOf(l.recv.subs, x.log[e + (k + 1)]);
    }
  }

  lemma PunchKeepsReceiver(x: Sender, l: Link, l': Link)
    requires Bounds(x) && RecvInv(x, l) && l.connected && l.down != [] && l.recv.arb.expecting != SEQ_MAX
    requires l' == l.(recv := PunchRecv(l.recv, l.down[0]), down := l.down[1..])
    ensures RecvInv(x, l') && Hi(l'.recv) == Hi(l.recv)
  {
    assert NoStart(l'.down) by { assert forall k :: 0 <= k < |l'.down| ==> l'.down[k] == l.down[k + 1]; }
    assert Started(x, l');
  }

  /** Ticking off the expected sequence moves the receiver on by one. */
  lemma TakeFrameReceiver(x: Sender, l: Link)
    requires Bounds(x) && RecvInv(x, l) && l.connected && l.down != [] && l.recv.arb.expecting != SEQ_MAX
    ensures RecvInv(x, TakeTcp1(l))
    ensures TakeTcp1(l).recv.arb.expecting == l.recv.arb.expecting + 1 && TakeTcp1(l).up == l.up
    ensures Hi(TakeTcp1(l).recv) == Hi(l.recv)
  {
    PunchValue(l);
    PunchKeepsReceiver(x, l, TakeTcp1(l));
  }

  /** It is right: the frame at hand is the answer for the expected sequence. */
  lemma TakeFrameContents(x: Sender, l: Link)
    requires Bounds(x) && RecvInv(x, l) && l.connected && l.down != [] && l.recv.arb.expecting != SEQ_MAX && Contents(x, l)
    ensures l.down[0] == FrameOf(l.recv.subs, x.log[l.recv.arb.expecting])
    ensures Contents(x, TakeTcp1(l))
  {
    var r, e := l.recv, l.recv.arb.expecting;
    assert l.down[0] == FrameOf(r.subs, x.log[e + 0]);
    PunchValue(l);
    DeliverTcp(r.output, x.log[r.minSeq..e], x.log[e], r.subs);
    assert x.log[r.minSeq..e] + [x.log[e]] == x.log[r.minSeq..e + 1];
    PunchKeepsFrames(x, l, TakeTcp1(l));
  }

  lemma TakeFrameKeeps(x: Sender, l: Link)
    requires Bounds(x) && LinkInv(x, l) && l.connected && l.down != [] && l.recv.arb.expecting != SEQ_MAX
    ensures LinkInv(x, TakeTcp1(l))
  {
    TakeFrameReceiver(x, l);
    var l' := TakeTcp1(l);
    if l.alive {
      assert l'.recv.subs == l.recv.subs;
      assert SubsInv(l') && Frontier(l') == Frontier(l) && Progress(l') == Progress(l);
    }
  }

  lemma TickKeeps(x: Sender, l: Link)
    requires Bounds(x) && LinkInv(x, l) && Enabled(x, l, TimerTick)
    ensures LinkInv(x, Apply(x, l, TimerTick))
  {
    assert l.up + [] == l.up;
    if !l.recv.gapPending && l.recv.arb.expecting != SEQ_MAX {
      SendReport(x, l, 0, Apply(x, l, TimerTick));
    }
  }

  lemma ConnectKeeps(x: Sender, l: Link, order: seq<Tag>)
    requires Bounds(x) && LinkInv(x, l) && Enabled(x, l, Connect(order))
    ensures LinkInv(x, Apply(x, l, Connect(order)))
  {
    SubscriptionsOwed({}, order, l.recv.subs);
  }

  lemma RefreshKeeps(x: Sender, l: Link, order: seq<Tag>)
    requires Bounds(x) && LinkInv(x, l) && Enabled(x, l, Refresh(order))
    ensures LinkInv(x, Apply(x, l, Refresh(order)))
  {
    if l.alive {
      SubscriptionsOwed(l.recv.subs, order, l.recv.subs);
      SubsOwedConcat(l.clientSubs, l.up, Subscriptions(order), l.recv.subs);
      ReportsOfConcat(l.up, Subscriptions(order));
      assert Reports(l.up + Subscriptions(order)) == Reports(l.up);
    }
  }

  // ---- sender steps ---------------------------------------------------------------------------

  lemma ReadReportKeepsPending(l: Link, r: Request, cap: nat, l': Link)
    requires Pending(l) && l.up != [] && l.up[0] == Report(r.s, r.len)
    requires l' == l.(up := l.up[1..], queue := PushRequest(l.queue, r, cap))
    ensures Pending(l')
  {
    assert l.queue + Reports(l.up) == l.queue + [r] + Reports(l.up[1..]);
    ChainPush(Progress(l), l.queue, r, Reports(l.up[1..]), Frontier(l), Hi(l.recv), cap);
  }

  lemma ReadKeepsSubs(x: Sender, l: Link)
    requires SubsInv(l) && l.up != []
    ensures SubsInv(Command1(x, l))
  {
  }

  /** A subscription or end mark does not touch the requests. */
  lemma ReadOtherKeepsReports(l: Link)
    requires l.up != [] && !l.up[0].Report?
    ensures Reports(l.up[1..]) == Reports(l.up)
  {
    assert Reports(l.up) == [] + Reports(l.up[1..]);
  }

  lemma SamePending(l: Link, l': Link)
    requires SendStarted(l) && |l.recv.arb.j| == 2
    requires l' == l.(queue := l'.queue, up := l'.up, clientSubs := l'.clientSubs, ready := l'.ready)
    requires Chain(Progress(l), l'.queue + Reports(l'.up), Frontier(l), Hi(l.recv))
    ensures SendStarted(l')
  {
  }

  lemma ReadReportKeepsStarted(x: Sender, l: Link)
    requires |l.recv.arb.j| == 2 && l.up != [] && SendStarted(l) && l.up[0].Report?
    ensures SendStarted(Command1(x, l))
  {
    var r, l' := Request(l.up[0].s, l.up[0].len), Command1(x, l);
    ReadReportKeepsPending(l, r, x.cap, l');
    SamePending(l, l');
  }

  lemma ReadOtherKeepsStarted(x: Sender, l: Link)
    requires |l.recv.arb.j| == 2 && l.up != [] && SendStarted(l) && !l.up[0].Report?
    ensures SendStarted(Command1(x, l))
  {
    ReadOtherKeepsReports(l);
    SamePending(l, Command1(x, l));
  }

  lemma ReadKeepsWaiting(x: Sender, l: Link)
    requires l.up != [] && SendWaiting(l)
    ensures SendWaiting(Command1(x, l))
  {
    if l.up[0].Report? {
      assert false;
    } else {
      ReadOtherKeepsReports(l);
    }
  }

  lemma ReadKeeps(x: Sender, l: Link)
    requires Bounds(x) && LinkInv(x, l) && l.alive && l.up != []
    ensures LinkInv(x, Command1(x, l))
  {
    var l' := Command1(x, l);
    ReadKeepsSubs(x, l);
    if l.recv.arb.expecting == SEQ_MAX { ReadKeepsWaiting(x, l); } else if l.up[0].Report? { ReadReportKeepsStarted(x, l); }
    else { ReadOtherKeepsStarted(x, l); }
    SameReceiver(x, l, l');
    assert l'.bufItNext == l.bufItNext;
    assert SendInv(x, l');
  }

  /** The receiver's half depends on nothing the sender's own bookkeeping changes. */
  lemma SameReceiver(x: Sender, l: Link, l': Link)
    requires RecvInv(x, l)
    requires l'.recv == l.recv && l'.held == l.held && l'.down == l.down && l'.connected == l.connected
    ensures RecvInv(x, l')
  {
  }

  /** Frames read from the ring are the answers for the log's entries if the slots still hold these. */
  lemma FramesMatchLog(x: Sender, l: Link, from: nat, upto: nat)
    requires |x.slots| > 0 && FramesInOrder(x, l)
    requires from == l.recv.arb.expecting + |l.down| && from <= upto <= |x.log|
    requires l.clientSubs == l.recv.subs
    requires forall s :: from <= s < upto ==> FrameOf(l.clientSubs, x.slots[s % |x.slots|]) == FrameOf(l.clientSubs, x.log[s])
    ensures FramesInOrder(x, l.(down := l.down + Frames(x.slots, l.clientSubs, from, upto)))
  {
    var e, more := l.recv.arb.expecting, Frames(x.slots, l.clientSubs, from, upto);
    forall k | 0 <= k < |l.down + more|
      ensures (l.down + more)[k] == FrameOf(l.recv.subs, x.log[e + k])
    {
      if k >= |l.down| {
        assert more[k - |l.down|] == FrameOf(l.clientSubs, x.slots[(from + (k - |l.down|)) % |x.slots|]);
        assert from + (k - |l.down|) == e + k;
      }
    }
  }

  /** And only then. */
  lemma FramesMatchSlots(x: Sender, l: Link, from: nat, upto: nat)
    requires |x.slots| > 0 && from == l.recv.arb.expecting + |l.down| && from <= upto <= |x.log| && l.clientSubs == l.recv.subs
    requires FramesInOrder(x, l.(down := l.down + Frames(x.slots, l.clientSubs, from, upto)))
    ensures forall s :: from <= s < upto ==> FrameOf(l.clientSubs, x.slots[s % |x.slots|]) == FrameOf(l.clientSubs, x.log[s])
  {
    var e, more := l.recv.arb.expecting, Frames(x.slots, l.clientSubs, from, upto);
    forall s | from <= s < upto ensures FrameOf(l.clientSubs, x.slots[s % |x.slots|]) == FrameOf(l.clientSubs, x.log[s]) {
      assert (l.down + more)[s - e] == FrameOf(l.recv.subs, x.log[e + (s - e)]);
      assert (l.down + more)[s - e] == more[s - from] == FrameOf(l.clientSubs, x.slots[(from + (s - from)) % |x.slots|]);
    }
  }

  /** Handing entries from the frontier on to the connection keeps the receiver's half. */
  lemma HandOver(x: Sender, l: Link, from: nat, upto: nat, l': Link)
    requires Bounds(x) && RecvInv(x, l) && l.recv.arb.expecting != SEQ_MAX
    requires from == l.recv.arb.expecting + |l.down| && from <= upto <= Hi(l.recv)
    requires l' == l.(down := l'.down, queue := l'.queue, relic := l'.relic, bufItNext := l'.bufItNext)
    requires l'.down == l.down + Frames(x.slots, l.clientSubs, from, upto)
    ensures RecvInv(x, l') && |l'.down| == |l.down| + (upto - from)
  {
    assert NoStart(l'.down);
  }

  lemma FlushKeepsRequests(x: Sender, l: Link, t: nat)
    requires |x.slots| > 0 && l.relic.Relic? && l.relic.from + t <= l.relic.to && SendStarted(l)
    ensures SendStarted(FlushRelic1(x, l, t))
  {
    var l' := FlushRelic1(x, l, t);
    assert |l'.down| == |l.down| + t && Frontier(l') == Frontier(l) && Progress(l') == Progress(l);
  }

  lemma FlushKeeps(x: Sender, l: Link, t: nat)
    requires Bounds(x) && LinkInv(x, l) && Enabled(x, l, FlushRelic(t))
    ensures LinkInv(x, FlushRelic1(x, l, t))
  {
    ChainBounds(Progress(l), l.queue + Reports(l.up), Frontier(l), Hi(l.recv));
    HandOver(x, l, l.relic.from, l.relic.from + t, FlushRelic1(x, l, t));
    FlushKeepsRequests(x, l, t);
  }

  /** A receiver following the protocol is refused exactly if it asks for more than a ring at once. */
  lemma RequestIsGood(x: Sender, l: Link)
    requires Bounds(x) && LinkInv(x, l) && l.alive && l.queue != [] && l.relic == NoRelic
    ensures BadRequest(x, l, l.queue[0]) <==> l.queue[0].len > x.cap
    ensures HasRoom(x) ==> l.queue[0].len <= x.cap
    ensures l.queue[0].len > 0 ==> l.queue[0].s == Frontier(l)
  {
    var q := l.queue + Reports(l.up);
    assert q[0] == l.queue[0];
    ChainBounds(Progress(l), q, Frontier(l), Hi(l.recv));
  }

  /** A gap report waiting to be served is the only request there is. */
  lemma GapReportIsAlone(l: Link)
    requires Pending(l) && l.queue != [] && l.queue[0].len > 0
    ensures l.queue == [l.queue[0]] && Reports(l.up) == []
    ensures l.queue[0].s == Frontier(l) && l.queue[0].s + l.queue[0].len == Hi(l.recv)
  {
    assert (l.queue + Reports(l.up))[0] == l.queue[0];
  }

  /** What is left of it once `k` of its entries are handed over. */
  lemma ServeKeepsPending(x: Sender, l: Link, k: nat, t: nat)
    requires |x.slots| > 0 && Pending(l) && l.relic == NoRelic && l.queue != []
    requires l.queue[0].len > 0 && 1 <= k <= l.queue[0].len && t <= k
    ensures Pending(Serve1(x, l, k, t))
  {
    GapReportIsAlone(l);
    var r, l' := l.queue[0], Serve1(x, l, k, t);
    assert l.queue[1..] == [];
    var rest := if k == r.len then [] else [Request(r.s + k, r.len - k)];
    assert l'.queue == rest && Reports(l'.up) == [];
    assert l'.queue + Reports(l'.up) == rest;
    ServedFrontier(x, l, k, t);
    RestIsChain(r.s + k, r.len - k);
  }

  /** A request's rest, alone, starts where the next entry is due. */
  lemma RestIsChain(x: nat, len: nat)
    ensures Chain(x, if len == 0 then [] else [Request(x, len)], x, x + len)
  {
  }

  lemma ServedFrontier(x: Sender, l: Link, k: nat, t: nat)
    requires |x.slots| > 0 && l.relic == NoRelic && l.queue != [] && l.queue[0].len > 0 && 1 <= k <= l.queue[0].len && t <= k
    requires l.queue[0].s == Frontier(l)
    ensures var l' := Serve1(x, l, k, t);
      Frontier(l') == l.queue[0].s + k && Progress(l') == l.queue[0].s + k && Hi(l'.recv) == Hi(l.recv)
  {
  }

  lemma ServeReportKeeps(x: Sender, l: Link)
    requires Bounds(x) && LinkInv(x, l) && l.alive && l.relic == NoRelic && l.queue != [] && l.queue[0].len == 0
    ensures LinkInv(x, Serve1(x, l, 0, 0))
  {
    RequestIsGood(x, l);
    var all, l' := l.queue + Reports(l.up), Serve1(x, l, 0, 0);
    ChainBounds(Progress(l), all, Frontier(l), Hi(l.recv));
    assert all[0] == l.queue[0] && all[1..] == l'.queue + Reports(l'.up);
    SameReceiver(x, l, l');
    assert SubsInv(l');
  }

  lemma ServeKeepsProgress(x: Sender, l: Link, k: nat, t: nat)
    requires |x.slots| > 0 && SendStarted(l) && l.relic == NoRelic && l.queue != []
    requires l.queue[0].len > 0 && 1 <= k <= l.queue[0].len && t <= k
    ensures var l' := Serve1(x, l, k, t);
      SendStarted(l') && l.bufItNext <= l'.bufItNext && (l'.bufItNext == l.bufItNext || l'.bufItNext <= Hi(l.recv))
  {
    GapReportIsAlone(l);
    ServeKeepsPending(x, l, k, t);
  }

  lemma ServeGapKeeps(x: Sender, l: Link, k: nat, t: nat)
    requires Bounds(x) && LinkInv(x, l) && l.alive && l.relic == NoRelic && l.queue != []
    requires l.queue[0].len > 0 && 1 <= k <= l.queue[0].len && t <= k
    ensures LinkInv(x, Serve1(x, l, k, t))
  {
    GapReportIsAlone(l);
    HandOver(x, l, l.queue[0].s, l.queue[0].s + t, Serve1(x, l, k, t));
    ServeKeepsProgress(x, l, k, t);
  }

  lemma ServeKeeps(x: Sender, l: Link, k: nat, t: nat)
    requires Bounds(x) && LinkInv(x, l) && Enabled(x, l, Serve(k, t))
    ensures LinkInv(x, Apply(x, l, Serve(k, t)))
  {
    if BadRequest(x, l, l.queue[0]) { DropKeeps(x, l); }
    else if l.queue[0].len == 0 { ServeReportKeeps(x, l); } else { ServeGapKeeps(x, l, k, t); }
  }

  lemma DropKeeps(x: Sender, l: Link)
    requires LinkInv(x, l)
    ensures LinkInv(x, l.(alive := false))
  {
    SameReceiver(x, l, l.(alive := false));
  }

  lemma HoldKeeps(x: Sender, l: Link, d: seq<UdpItem>)
    requires NetInv(x) && LinkInv(x, l) && d in x.net
    ensures LinkInv(x, l.(held := d))
  {
  }

  lemma LinkStepKeeps(x: Sender, l: Link, op: LinkOp)
    requires Bounds(x) && NetInv(x) && LinkInv(x, l) && Enabled(x, l, op)
    ensures LinkInv(x, Apply(x, l, op))
  {
    match op
    case Drop => DropKeeps(x, l);
    case ReadCommand => ReadKeeps(x, l);
    case FlushRelic(t) => FlushKeeps(x, l, t);
    case Serve(k, t) => ServeKeeps(x, l, k, t);
    case Connect(order) => ConnectKeeps(x, l, order);
    case TakeTcp => TakeTcpKeeps(x, l);
    case ReceiveDatagram(d) => HoldKeeps(x, l, d);
    case PresentUdp => PresentKeeps(x, l);
    case TimerTick => TickKeeps(x, l);
    case Refresh(order) => RefreshKeeps(x, l, order);
  }

  // ---- contents -------------------------------------------------------------------------------

  predicate HandsOver(l: Link, op: LinkOp) { op.FlushRelic? || (op.Serve? && l.queue != [] && l.queue[0].len > 0) }

  lemma SlotsHold(x: Sender, from: nat, upto: nat)
    requires RingInv(x) && HasRoom(x) && x.rs1 <= from && upto <= |x.log|
    ensures forall s :: from <= s < upto ==> x.slots[s % |x.slots|] == x.log[s]
  {
    forall s | from <= s < upto ensures x.slots[s % |x.slots|] == x.log[s] { assert s < |x.log| <= s + x.cap; }
  }

  lemma OthersReadNothing(x: Sender, l: Link, op: LinkOp)
    requires !HandsOver(l, op)
    ensures ReadsRight(x, l, op)
  {
    assert ReadCount(x, l, op) == 0;
  }

  /** With room every step reads what was put. */
  lemma RoomReadsRight(x: Sender, l: Link, op: LinkOp)
    requires RingInv(x) && HasRoom(x) && LinkInv(x, l) && Enabled(x, l, op)
    ensures ReadsRight(x, l, op)
  {
    if HandsOver(l, op) {
      ReadsFromFrontier(x, l, op);
      SlotsHold(x, ReadFrom(x, l, op), ReadFrom(x, l, op) + ReadCount(x, l, op));
    } else {
      OthersReadNothing(x, l, op);
    }
  }

  /** Where a step that hands frames over reads: right behind the frames under way, up to what the receiver waits for. */
  lemma ReadsFromFrontier(x: Sender, l: Link, op: LinkOp)
    requires Bounds(x) && LinkInv(x, l) && Enabled(x, l, op) && HandsOver(l, op)
    ensures l.recv.arb.expecting != SEQ_MAX && l.clientSubs == l.recv.subs
    ensures ReadFrom(x, l, op) == l.recv.arb.expecting + |l.down| && l.bufItNext <= ReadFrom(x, l, op)
    ensures ReadFrom(x, l, op) + ReadCount(x, l, op) <= Hi(l.recv)
    ensures var n := ReadCount(x, l, op);
            Apply(x, l, op).down == if n == 0 then l.down else l.down + Frames(x.slots, l.clientSubs, ReadFrom(x, l, op), ReadFrom(x, l, op) + n)
  {
    ChainBounds(Progress(l), l.queue + Reports(l.up), Frontier(l), Hi(l.recv));
    if op.Serve? { GapReportIsAlone(l); }
    assert ReadCount(x, l, op) == 0 ==> Frames(x.slots, l.clientSubs, ReadFrom(x, l, op), ReadFrom(x, l, op)) == [];
  }

  lemma HandOverContents(x: Sender, l: Link, op: LinkOp)
    requires Bounds(x) && LinkInv(x, l) && Contents(x, l) && Enabled(x, l, op) && ReadsRight(x, l, op)
    requires HandsOver(l, op)
    ensures Contents(x, Apply(x, l, op))
  {
    ReadsFromFrontier(x, l, op);
    SameReceived(x, l, op);
    var from, n := ReadFrom(x, l, op), ReadCount(x, l, op);
    if n > 0 { FramesMatchLog(x, l, from, from + n); }
    MoreContents(x, l, Apply(x, l, op));
  }

  lemma SameReceived(x: Sender, l: Link, op: LinkOp)
    requires Enabled(x, l, op) && (op.FlushRelic? || op.Serve?)
    ensures Apply(x, l, op).recv == l.recv
  {
  }

  lemma MoreContents(x: Sender, l: Link, l': Link)
    requires Contents(x, l) && l'.recv == l.recv && l.recv.arb.expecting != SEQ_MAX && FramesInOrder(x, l.(down := l'.down))
    ensures Contents(x, l')
  {
    SameFrames(x, l.(down := l'.down), l');
  }

  lemma SameFrames(x: Sender, l: Link, l': Link)
    requires FramesInOrder(x, l) && l'.down == l.down && l'.recv.arb.expecting == l.recv.arb.expecting && l'.recv.subs == l.recv.subs
    ensures FramesInOrder(x, l')
  {
  }

  /** What is not the expected message leaves expectation and output alone. */
  lemma PresentOther(x: Sender, l: Link)
    requires Bounds(x) && RecvInv(x, l) && l.held != []
    requires l.held[0].Data? ==> l.recv.arb.expecting == SEQ_MAX || l.recv.gapPending || l.held[0].s != l.recv.arb.expecting
    ensures var r, r' := l.recv, Present1(l).recv;
            r'.arb.expecting == r.arb.expecting && r'.minSeq == r.minSeq && r'.subs == r.subs && r'.output == r.output
    ensures Present1(l).down == l.down
  {
    assert Known(x, l.held[0]);
    if l.held[0].Data? { NoArbiterGap(x, l, 0, l.held[0].s); }
  }

  lemma PresentKeepsContents(x: Sender, l: Link)
    requires Bounds(x) && RecvInv(x, l) && Contents(x, l) && l.held != []
    ensures Contents(x, Present1(l))
  {
    var e := l.recv.arb.expecting;
    if l.held[0].Data? && e != SEQ_MAX && !l.recv.gapPending && l.held[0].s == e {
      assert Known(x, l.held[0]);
      HitValue(l);
      HitKeepsContents(x, l, l.held[0].msg, Present1(l));
    } else {
      PresentOther(x, l);
      if e != SEQ_MAX { SameFrames(x, l, Present1(l)); }
    }
  }

  lemma TakeKeepsContents(x: Sender, l: Link)
    requires Bounds(x) && LinkInv(x, l) && Contents(x, l) && l.connected && l.down != []
    ensures Contents(x, TakeTcp1(l))
  {
    if l.recv.arb.expecting == SEQ_MAX {
      var l' := TakeTcp1(l);
      assert l'.down == [] && x.log[l'.recv.minSeq..l'.recv.arb.expecting] == [];
    } else {
      TakeFrameContents(x, l);
    }
  }

  /** Every step keeps frames and output right, if what it reads is. */
  lemma ContentsKept(x: Sender, l: Link, op: LinkOp)
    requires Bounds(x) && LinkInv(x, l) && Contents(x, l) && Enabled(x, l, op) && ReadsRight(x, l, op)
    ensures Contents(x, Apply(x, l, op))
  {
    if HandsOver(l, op) { HandOverContents(x, l, op); }
    else if op.PresentUdp? { PresentKeepsContents(x, l); }
    else if op.TakeTcp? { TakeKeepsContents(x, l); }
  }

  /** If the frames under way are right after a step, what it read was right. */
  lemma ContentsNeedRightReads(x: Sender, l: Link, op: LinkOp)
    requires Bounds(x) && LinkInv(x, l) && Enabled(x, l, op) && HandsOver(l, op)
    requires FramesInOrder(x, Apply(x, l, op))
    ensures ReadsRight(x, l, op)
  {
    ReadsFromFrontier(x, l, op);
    var from, n, l' := ReadFrom(x, l, op), ReadCount(x, l, op), Apply(x, l, op);
    SameReceived(x, l, op);
    SameFrames(x, l', l.(down := l'.down));
    if n > 0 {
      FramesMatchSlots(x, l, from, from + n);
    }
  }
}
