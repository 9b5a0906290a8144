/** What the reliable multicast promises, for every run. */
module Theorems {
  import opened Common
  import opened Messages
  import opened Receiver
  import opened Sender
  import opened Requests
  import opened Invariants
  import opened LinkProofs
  import opened Delivery

  // ---- end-to-end delivery --------------------------------------------------------------------

  /** The tag a subscriber asks for when it wants this entry: a train's parts go under its message's tag. */
  function AskedFor(e: Entry): Tag
  {
    if e.msg.tag == START_TAG then (if |e.msg.body| >= 2 then e.msg.body[0] + 256 * e.msg.body[1] else 0)
    else if e.msg.tag == SEG_TAG then e.segUnder
    else e.msg.tag
  }

  /** The messages of `es` that `subs` asks for, in order. */
  function Subscribed(es: seq<Entry>, subs: set<Tag>): seq<Msg>
  {
    if es == [] then []
    else
      var last := es[|es| - 1];
      Subscribed(es[..|es| - 1], subs) + (if AskedFor(last) in subs then [last.msg] else [])
  }

  /** Everything but train segments. */
  function WithoutSegments(ms: seq<Msg>): seq<Msg>
  {
    if ms == [] then []
    else
      var last := ms[|ms| - 1];
      WithoutSegments(ms[..|ms| - 1]) + (if last.tag == SEG_TAG then [] else [last])
  }

  lemma {:induction false} DeliveredWithoutSegments(out: seq<Msg>, es: seq<Entry>, subs: set<Tag>)
    requires Delivered(out, es, subs) && START_TAG in subs && SEG_TAG in subs
    ensures WithoutSegments(out) == WithoutSegments(Subscribed(es, subs))
    decreases |es|
  {
    if es != [] {
      var last, init, want := es[|es| - 1], es[..|es| - 1], Subscribed(es, subs);
      if out != [] && out[|out| - 1] == last.msg && (Resends(subs, last) || Stray(subs, last))
         && Delivered(out[..|out| - 1], init, subs) {
        DeliveredWithoutSegments(out[..|out| - 1], init, subs);
      } else {
        DeliveredWithoutSegments(out, init, subs);
      }
      if Resends(subs, last) {
        assert want[..|want| - 1] == Subscribed(init, subs);
      } else {
        assert want == Subscribed(init, subs);
      }
    }
  }

  lemma {:induction false} DeliveredExactly(out: seq<Msg>, es: seq<Entry>, subs: set<Tag>)
    requires Delivered(out, es, subs) && START_TAG in subs && SEG_TAG in subs
    requires forall i :: 0 <= i < |es| ==> !Stray(subs, es[i])
    ensures out == Subscribed(es, subs)
    decreases |es|
  {
    if es != [] {
      var last, init := es[|es| - 1], es[..|es| - 1];
      if Resends(subs, last) {
        DeliveredExactly(out[..|out| - 1], init, subs);
        assert out == out[..|out| - 1] + [last.msg];
      } else {
        DeliveredExactly(out, init, subs);
      }
    }
  }

  lemma DeliveredSlice(out: seq<Msg>, log: seq<Entry>, lo: nat, hi: nat, subs: set<Tag>)
    requires lo <= hi <= |log| && START_TAG in subs && SEG_TAG in subs
    requires Delivered(out, log[lo..hi], subs)
    ensures WithoutSegments(out) == WithoutSegments(Subscribed(log[lo..hi], subs))
    ensures (forall s :: lo <= s < hi ==> !Stray(subs, log[s])) ==> out == Subscribed(log[lo..hi], subs)
  {
    var es := log[lo..hi];
    DeliveredWithoutSegments(out, es, subs);
    if forall s :: lo <= s < hi ==> !Stray(subs, log[s]) {
      forall k | 0 <= k < |es| ensures !Stray(subs, es[k]) { assert es[k] == log[lo + k]; }
      DeliveredExactly(out, es, subs);
    }
  }

  /**
   * The receiver has output exactly the subscribed messages of `log` between its start sequence and the one it expects,
   * in order, none lost and none repeated. Segments are exact as well unless the log holds segments of trains the
   * receiver did not subscribe to. Before it has read its start sequence it has output nothing.
   */
  ghost predicate OutputRight(r: Recv, log: seq<Entry>)
  {
    if r.arb.expecting == SEQ_MAX then r.output == []
    else
      && r.minSeq <= r.arb.expecting <= |log|
      && WithoutSegments(r.output) == WithoutSegments(Subscribed(log[r.minSeq..r.arb.expecting], r.subs))
      && ((forall s :: r.minSeq <= s < r.arb.expecting ==> !Stray(r.subs, log[s]))
            ==> r.output == Subscribed(log[r.minSeq..r.arb.expecting], r.subs))
  }

  /** So it is at any moment of a run in which sessions read what was put. */
  lemma EndToEndDelivery(states: seq<System>, steps: seq<Step>, i: nat, id: nat)
    requires FaithfulRun(states, steps) && i < |states| && id in states[i].links
    ensures OutputRight(states[i].links[id].recv, states[i].snd.log)
  {
    Reachable(states, steps, i);
    FaithfulReachable(states, steps, i);
    ContentsAreOutput(states[i].snd, states[i].links[id]);
  }

  lemma ContentsAreOutput(x: Sender, l: Link)
    requires Bounds(x) && LinkInv(x, l) && Contents(x, l)
    ensures OutputRight(l.recv, x.log)
  {
    var r := l.recv;
    if r.arb.expecting != SEQ_MAX { DeliveredSlice(r.output, x.log, r.minSeq, r.arb.expecting, r.subs); }
  }

  /** A frame carries no sequence, yet the frames under way answer, one after the other, for what the receiver expects. */
  ghost predicate FramesAnswer(y: System, id: nat)
    requires id in y.links
  {
    y.links[id].recv.arb.expecting != SEQ_MAX ==> FramesInOrder(y.snd, y.links[id])
  }

  /** Exactly: in every state of a run all frames under way are the right ones if and only if sessions read what was put. */
  lemma FramesAnswerIffReadsAreRight(states: seq<System>, steps: seq<Step>)
    requires Run(states, steps)
    ensures (forall i, id :: 0 <= i < |states| && id in states[i].links ==> FramesAnswer(states[i], id)) <==> FaithfulRun(states, steps)
  {
    if FaithfulRun(states, steps) {
      forall i, id | 0 <= i < |states| && id in states[i].links ensures FramesAnswer(states[i], id) {
        FaithfulReachable(states, steps, i);
        assert Contents(states[i].snd, states[i].links[id]);
      }
    }
    if forall i, id :: 0 <= i < |states| && id in states[i].links ==> FramesAnswer(states[i], id) {
      forall i | 0 <= i < |steps| ensures StepReadsRight(states[i], steps[i]) {
        assert Next(states[i], steps[i], states[i + 1]);
        if steps[i].StepLink? {
          Reachable(states, steps, i);
          assert FramesAnswer(states[i + 1], steps[i].id);
          AnswersNeedRightReads(states[i].snd, states[i].links[steps[i].id], steps[i].op);
        }
      }
    }
  }

  lemma AnswersNeedRightReads(x: Sender, l: Link, op: LinkOp)
    requires Bounds(x) && LinkInv(x, l) && Enabled(x, l, op)
    requires Apply(x, l, op).recv.arb.expecting != SEQ_MAX ==> FramesInOrder(x, Apply(x, l, op))
    ensures ReadsRight(x, l, op)
  {
    if HandsOver(l, op) {
      ReadsFromFrontier(x, l, op);
      SameReceived(x, l, op);
      ContentsNeedRightReads(x, l, op);
    } else {
      OthersReadNothing(x, l, op);
    }
  }

  /** Neither path ever runs the arbiter's gap callback, in any run. */
  lemma GapCallbackIsImpossible(states: seq<System>, steps: seq<Step>, i: nat, id: nat)
    requires Run(states, steps) && i < |states| && id in states[i].links
    ensures var l := states[i].links[id];
      && |l.recv.arb.j| == 2
      && (l.held != [] ==> Accept(l.recv, l.held[0]).gap == 0)
      && (l.connected && l.down != [] ==> TakeFrame(l.recv, l.down[0]).gap == 0)
  {
    Reachable(states, steps, i);
    var x, l := states[i].snd, states[i].links[id];
    if l.held != [] && l.held[0].Data? {
      assert Known(x, l.held[0]);
      NoArbiterGap(x, l, 0, l.held[0].s);
    }
    if l.connected && l.down != [] && l.recv.arb.expecting != SEQ_MAX {
      NoArbiterGap(x, l, 1, l.recv.arb.expecting);
    }
  }

  // ---- a correct receiver is never cut off ----------------------------------------------------

  /** The requests of a link that have not been served: queued, or on their way. */
  function Outstanding(l: Link): seq<Request> { l.queue + Reports(l.up) }

  /** None of them asks for more than a ring at once. */
  predicate AllShort(x: Sender, l: Link) { forall k :: 0 <= k < |Outstanding(l)| ==> Outstanding(l)[k].len <= x.cap }

  lemma RefusedIffLong(x: Sender, l: Link, k: nat)
    requires Bounds(x) && LinkInv(x, l) && l.alive && k < |Outstanding(l)|
    ensures BadRequest(x, l, Outstanding(l)[k]) <==> Outstanding(l)[k].len > x.cap
    ensures HasRoom(x) ==> Outstanding(l)[k].len <= x.cap
  {
    ChainMember(Progress(l), Outstanding(l), Frontier(l), Hi(l.recv), k);
  }

  /**
   * In every run the test the sender puts a report to, on its way or waiting to be served, fails exactly if it asks
   * for more than a ring; and while the log is no further than a ring ahead of the backup cursor, none does.
   */
  lemma NeverCutOff(states: seq<System>, steps: seq<Step>, i: nat, id: nat, k: nat)
    requires Run(states, steps) && i < |states| && id in states[i].links && states[i].links[id].alive
    requires k < |Outstanding(states[i].links[id])|
    ensures var x, l := states[i].snd, states[i].links[id];
      && (BadRequest(x, l, Outstanding(l)[k]) <==> Outstanding(l)[k].len > x.cap)
      && (HasRoom(x) ==> !BadRequest(x, l, Outstanding(l)[k]))
  {
    Reachable(states, steps, i);
    RefusedIffLong(states[i].snd, states[i].links[id], k);
  }

  /** A session that refuses a request is closed on the spot: it sends nothing for it, and the others are left alone. */
  lemma RefusedIsClosed(states: seq<System>, steps: seq<Step>, i: nat)
    requires Run(states, steps) && i < |steps| && steps[i].StepLink? && steps[i].op.Serve?
    ensures steps[i].id in states[i].links && steps[i].id in states[i + 1].links && states[i].links[steps[i].id].queue != []
    ensures var l, l' := states[i].links[steps[i].id], states[i + 1].links[steps[i].id];
      && l.alive && (l'.alive <==> !BadRequest(states[i].snd, l, l.queue[0]))
      && (!l'.alive ==> l'.down == l.down && l'.relic == NoRelic)
      && states[i + 1].snd == states[i].snd && forall k :: k in states[i].links && k != steps[i].id ==> k in states[i + 1].links && states[i + 1].links[k] == states[i].links[k]
  {
    assert Next(states[i], steps[i], states[i + 1]);
  }

  function Without(links: map<nat, Link>, id: nat): map<nat, Link> { map k | k in links && k != id :: links[k] }

  /** Nobody waits for a session whose connection is gone: retention asks for the least progress of the others. */
  lemma DroppedHoldsNothing(y: System, id: nat, z: System, least: nat)
    requires Next(y, StepLink(id, Drop), z)
    ensures IsLeast(z.snd, z.links, least) <==> IsLeast(y.snd, Without(y.links, id), least)
  {
    var others := Without(y.links, id);
    assert forall k :: k in z.links && z.links[k].alive ==> k in others && others[k] == z.links[k];
    assert forall k :: k in others ==> k in z.links && z.links[k] == others[k];
  }

  /** An open gap is never forgotten: the answer is under way, or the request still is. */
  lemma OpenGapIsInHand(x: Sender, l: Link)
    requires Bounds(x) && LinkInv(x, l) && l.alive && l.recv.gapPending
    ensures l.down != [] || l.relic.Relic? || l.queue != [] || l.up != []
  {
    assert l.recv.arb.expecting != SEQ_MAX;
  }

  /** What the two ends do next about an open gap. */
  function NextMove(l: Link): LinkOp
  {
    if l.down != [] then TakeTcp
    else if l.relic.Relic? then FlushRelic(RelicSize(l.relic))
    else if l.queue != [] then Serve(l.queue[0].len, l.queue[0].len)
    else ReadCommand
  }

  /** The move can be made, and brings the end of the gap nearer. */
  lemma MoveHelps(x: Sender, l: Link)
    requires Bounds(x) && LinkInv(x, l) && l.alive && l.recv.gapPending && AllShort(x, l)
    ensures Enabled(x, l, NextMove(l))
    ensures var m := Apply(x, l, NextMove(l));
      && m.alive && Hi(m.recv) == Hi(l.recv) && m.held == l.held
      && (NextMove(l) == TakeTcp ==> m.recv.arb.expecting == l.recv.arb.expecting + 1)
      && (m.recv.gapPending ==> m.recv.gapPendingSeq == l.recv.gapPendingSeq)
      && (NextMove(l) != TakeTcp ==> m.recv == l.recv)
      && (NextMove(l).FlushRelic? ==> m.up == l.up && m.queue == l.queue && m.relic == NoRelic)
      && (NextMove(l).Serve? ==> m.up == l.up && |m.queue| < |l.queue|)
      && (NextMove(l) == ReadCommand ==> |m.up| < |l.up|)
  {
    OpenGapIsInHand(x, l);
    if l.down != [] { TakeFrameReceiver(x, l); }
    else if l.relic == NoRelic && l.queue != [] {
      RequestIsGood(x, l);
      assert Outstanding(l)[0] == l.queue[0];
    }
  }

  lemma MoveKeepsShort(x: Sender, l: Link)
    requires Bounds(x) && LinkInv(x, l) && l.alive && l.recv.gapPending && AllShort(x, l)
    ensures Enabled(x, l, NextMove(l)) && AllShort(x, Apply(x, l, NextMove(l)))
  {
    MoveHelps(x, l);
    var q, m := Outstanding(l), Apply(x, l, NextMove(l));
    if NextMove(l) == ReadCommand { ReadOutstanding(x, l); }
    else if NextMove(l).Serve? {
      assert q[0] == l.queue[0] && q[1..] == l.queue[1..] + Reports(l.up);
      assert Outstanding(m) == q[1..];
    } else if NextMove(l) == TakeTcp {
      PunchValue(l);
    }
  }

  /** Reading a command forgets at most the first request, and only if there are others. */
  lemma ReadOutstanding(x: Sender, l: Link)
    requires l.up != []
    ensures Outstanding(Command1(x, l)) == Outstanding(l)
            || (|Outstanding(l)| > 1 && Outstanding(Command1(x, l)) == Outstanding(l)[1..])
  {
    var l' := Command1(x, l);
    if l.up[0].Report? {
      var r := Request(l.up[0].s, l.up[0].len);
      assert Reports(l.up) == [r] + Reports(l.up[1..]);
      assert Outstanding(l) == l.queue + [r] + Reports(l.up[1..]);
      if |l.queue| >= x.cap && |l.queue| > 0 {
        assert Outstanding(l') == l.queue[1..] + [r] + Reports(l.up[1..]) == Outstanding(l)[1..];
      }
    } else {
      ReadOtherKeepsReports(l);
    }
  }

  /** Whatever state an open gap is in, the two ends can close it by themselves, if nothing asked for is too long. */
  lemma {:induction false} GapCanClose(x: Sender, l: Link) returns (ops: seq<LinkOp>, l': Link)
    requires Bounds(x) && NetInv(x) && LinkInv(x, l) && l.alive && l.recv.gapPending && AllShort(x, l)
    ensures Performs(x, l, ops, l') && LinkInv(x, l') && l'.alive
    ensures !l'.recv.gapPending && l'.recv.arb.expecting == l.recv.gapPendingSeq + 1 && l'.held == l.held
    decreases Hi(l.recv) - l.recv.arb.expecting, |l.up|, |l.queue|, if l.relic.Relic? then 1 else 0
  {
    var op := NextMove(l);
    MoveHelps(x, l);
    MoveKeepsShort(x, l);
    LinkStepKeeps(x, l, op);
    var m := Apply(x, l, op);
    if m.recv.gapPending {
      ops, l' := GapCanClose(x, m);
    } else {
      ops, l' := [], m;
    }
    Prepend(x, l, op, ops, l');
    ops := [op] + ops;
  }

  /** The receiver waits for something it will not get: the only request for it is refused, or was. */
  ghost predicate Stuck(x: Sender, l: Link)
  {
    && LinkInv(x, l) && l.recv.gapPending && l.recv.arb.expecting + |l.down| < Hi(l.recv)
    && (l.alive ==> !AllShort(x, l))
  }

  /** A request that is too long is the last one, and starts right behind everything handed over. */
  lemma LongIsLast(x: Sender, l: Link)
    requires LinkInv(x, l) && l.alive && l.recv.gapPending && !AllShort(x, l)
    ensures var q := Outstanding(l); q != [] && q[|q| - 1].len > x.cap && (forall k :: 0 <= k < |q| - 1 ==> q[k].len == 0)
    ensures Frontier(l) < Hi(l.recv)
  {
    var q := Outstanding(l);
    var k :| 0 <= k < |q| && q[k].len > x.cap;
    ChainLong(Progress(l), q, Frontier(l), Hi(l.recv), k);
  }

  lemma {:induction false} ChainLong(b: nat, q: seq<Request>, x: nat, hi: nat, k: nat)
    requires Chain(b, q, x, hi) && k < |q| && q[k].len > 0
    ensures k == |q| - 1 && q[k].s == x < hi == x + q[k].len && forall i :: 0 <= i < k ==> q[i].len == 0
    decreases |q|
  {
    if k > 0 {
      assert q[1..][k - 1] == q[k];
      ChainLong(q[0].s, q[1..], x, hi, k - 1);
      assert forall i :: 0 < i < k ==> q[i] == q[1..][i - 1];
    }
  }

  /** It stays, whatever is forgotten of the requests before it. */
  lemma LongStays(x: Sender, l: Link, l': Link)
    requires LinkInv(x, l) && l.recv.gapPending && (l'.alive ==> l.alive) && (l.alive ==> !AllShort(x, l))
    requires var q := Outstanding(l); Outstanding(l') == q || (|q| > 1 && Outstanding(l') == q[1..])
    ensures l'.alive ==> !AllShort(x, l')
  {
    if l'.alive {
      LongIsLast(x, l);
      var q, q' := Outstanding(l), Outstanding(l');
      assert q'[|q'| - 1] == q[|q| - 1];
    }
  }

  lemma StuckStays(x: Sender, l: Link, op: LinkOp)
    requires Bounds(x) && NetInv(x) && Stuck(x, l) && Enabled(x, l, op)
    ensures Stuck(x, Apply(x, l, op))
  {
    LinkStepKeeps(x, l, op);
    var l' := Apply(x, l, op);
    match op
    case Drop =>
    case ReadCommand => ReadOutstanding(x, l); LongStays(x, l, l');
    case FlushRelic(t) => StuckFlushes(x, l, t);
    case Serve(k, t) => StuckServes(x, l, k, t);
    case Connect(order) =>
    case TakeTcp => StuckTakes(x, l); LongStays(x, l, l');
    case ReceiveDatagram(d) => assert Outstanding(l') == Outstanding(l); LongStays(x, l, l');
    case PresentUdp => StuckHears(x, l, op); LongStays(x, l, l');
    case TimerTick => StuckHears(x, l, op); LongStays(x, l, l');
    case Refresh(order) => RefreshReports(l, order); LongStays(x, l, l');
  }

  /** With a gap report pending the multicast is not listened to, and nothing is reported. */
  lemma StuckHears(x: Sender, l: Link, op: LinkOp)
    requires l.recv.gapPending && Enabled(x, l, op) && (op == PresentUdp || op == TimerTick)
    ensures var l' := Apply(x, l, op); l'.recv == l.recv && l'.down == l.down && l'.up == l.up && l'.queue == l.queue && l'.alive == l.alive
  {
    assert l.up + [] == l.up;
  }

  lemma StuckFlushes(x: Sender, l: Link, t: nat)
    requires Bounds(x) && Stuck(x, l) && Enabled(x, l, FlushRelic(t))
    ensures var l' := FlushRelic1(x, l, t); l'.recv == l.recv && l'.recv.arb.expecting + |l'.down| < Hi(l'.recv) && !AllShort(x, l')
  {
    var l' := FlushRelic1(x, l, t);
    LongIsLast(x, l);
    LongStays(x, l, l');
  }

  lemma RefreshReports(l: Link, order: seq<Tag>)
    ensures Reports(l.up + Subscriptions(order)) == Reports(l.up)
  {
    ReportsOfConcat(l.up, Subscriptions(order));
    NoReports(order);
  }

  lemma {:induction false} NoReports(order: seq<Tag>)
    ensures Reports(Subscriptions(order)) == []
    decreases |order|
  {
    var c := Subscriptions(order);
    if order == [] {
      assert c == [AllSent] && c[1..] == [];
    } else {
      assert c[0] == Subscribe(order[0]) && c[1..] == Subscriptions(order[1..]);
      NoReports(order[1..]);
    }
  }

  lemma StuckTakes(x: Sender, l: Link)
    requires Bounds(x) && Stuck(x, l) && l.down != [] && l.connected
    ensures var l' := TakeTcp1(l);
      l'.recv.gapPending && l'.recv.arb.expecting + |l'.down| < Hi(l'.recv) && l'.alive == l.alive && Outstanding(l') == Outstanding(l)
  {
    PunchValue(l);
  }

  lemma StuckServes(x: Sender, l: Link, k: nat, t: nat)
    requires Bounds(x) && Stuck(x, l) && Enabled(x, l, Serve(k, t))
    ensures var l' := Apply(x, l, Serve(k, t)); l'.recv == l.recv && l'.down == l.down && (l'.alive ==> !AllShort(x, l'))
  {
    LongIsLast(x, l);
    RequestIsGood(x, l);
    var q, l' := Outstanding(l), Apply(x, l, Serve(k, t));
    assert q[0] == l.queue[0];
    if l.queue[0].len == 0 && l'.alive {
      assert q[1..] == l.queue[1..] + Reports(l.up);
      LongStays(x, l, l');
    }
  }

  lemma {:induction false} StuckForever(x: Sender, l: Link, ops: seq<LinkOp>, l': Link)
    requires Bounds(x) && NetInv(x) && Stuck(x, l) && Performs(x, l, ops, l')
    ensures l'.recv.gapPending
    decreases |ops|
  {
    if ops != [] {
      FirstOp(x, l, ops, l');
      StuckStays(x, l, ops[0]);
      StuckForever(x, Apply(x, l, ops[0]), ops[1..], l');
    }
  }

  /** The two ends can close the gap by themselves. */
  ghost predicate CanClose(x: Sender, l: Link) { exists ops: seq<LinkOp>, l': Link :: Performs(x, l, ops, l') && !l'.recv.gapPending }

  /** At any moment of any run: an open gap can be closed by the two ends if and only if no request is too long. */
  lemma GapCanCloseIffShort(states: seq<System>, steps: seq<Step>, i: nat, id: nat)
    requires Run(states, steps) && i < |states| && id in states[i].links
    requires states[i].links[id].alive && states[i].links[id].recv.gapPending
    ensures var x, l := states[i].snd, states[i].links[id];
      && (CanClose(x, l) <==> AllShort(x, l))
      && (HasRoom(x) ==> AllShort(x, l))
  {
    Reachable(states, steps, i);
    var x, l := states[i].snd, states[i].links[id];
    if HasRoom(x) {
      forall k | 0 <= k < |Outstanding(l)| ensures Outstanding(l)[k].len <= x.cap { RefusedIffLong(x, l, k); }
    }
    if AllShort(x, l) {
      var ops, l' := GapCanClose(x, l);
    } else if CanClose(x, l) {
      LongIsLast(x, l);
      var ops, l' :| Performs(x, l, ops, l') && !l'.recv.gapPending;
      StuckForever(x, l, ops, l');
    }
  }

  // ---- retention ------------------------------------------------------------------------------

  /**
   * In every run the backup cursor stays behind the multicast cursor (by the history to replay) and behind every live
   * session, and the ring holds the last entries, as many as it has slots. So while the log is no further than a ring
   * ahead of the backup cursor, what a session has been asked for, or has not finished sending, is intact.
   */
  lemma Retention(states: seq<System>, steps: seq<Step>, i: nat)
    requires Run(states, steps) && i < |states|
    ensures var x, links := states[i].snd, states[i].links;
      && |x.slots| == x.cap > 0
      && (x.rs1 == 0 || x.rs1 + x.replay <= x.rs0) && x.rs1 <= x.rs0 <= |x.log| <= x.cap + x.rs0
      && (forall s: nat :: s < |x.log| <= s + x.cap ==> x.slots[s % x.cap] == x.log[s])
      && forall id :: id in links && links[id].alive ==>
           && x.rs1 <= links[id].bufItNext
           && (HasRoom(x) ==> forall s :: links[id].bufItNext <= s < |x.log| ==> x.slots[s % x.cap] == x.log[s])
           && (links[id].relic.Relic? ==> links[id].bufItNext <= links[id].relic.from)
           && (forall r :: r in links[id].queue ==> links[id].bufItNext <= r.s)
  {
    Reachable(states, steps, i);
    var x, links := states[i].snd, states[i].links;
    forall id | id in links && links[id].alive
      ensures HasRoom(x) ==> forall s :: links[id].bufItNext <= s < |x.log| ==> x.slots[s % x.cap] == x.log[s]
      ensures links[id].relic.Relic? ==> links[id].bufItNext <= links[id].relic.from
      ensures forall r :: r in links[id].queue ==> links[id].bufItNext <= r.s
    {
      var l := links[id];
      if HasRoom(x) { SlotsHold(x, l.bufItNext, |x.log|); }
      forall r | r in l.queue ensures l.bufItNext <= r.s {
        var k :| 0 <= k < |l.queue| && l.queue[k] == r;
        assert (l.queue + Reports(l.up))[k] == r;
        ChainMember(Progress(l), l.queue + Reports(l.up), Frontier(l), Hi(l.recv), k);
      }
    }
  }

  /**
   * A session accepted now starts at the log's beginning, or at least the history to replay before the multicast cursor;
   * and while the log is no further than a ring ahead of the backup cursor, everything from its start on is in the ring.
   */
  lemma NewSessionSeesHistory(states: seq<System>, steps: seq<Step>, i: nat, subs: set<Tag>)
    requires Run(states, steps) && i < |states|
    ensures var x, start := states[i].snd, NewLink(states[i].snd, subs).bufItNext;
      && (start == 0 || start + x.replay <= x.rs0)
      && NewLink(x, subs).down == [StartSeq(start)]
      && |x.slots| == x.cap > 0 && (HasRoom(x) ==> forall s :: start <= s < |x.log| ==> x.slots[s % x.cap] == x.log[s])
  {
    Reachable(states, steps, i);
    var x := states[i].snd;
    if HasRoom(x) { SlotsHold(x, x.rs1, |x.log|); }
  }

  /** A cursor that moves up to `least` less the history to replay, never back. */
  function MovedUp(cursor: nat, replay: nat, least: nat): nat
  {
    if cursor + replay < least then least - replay else cursor
  }

  /**
   * How far a retention turn moves the backup cursor, in any run: up to the least progress less the history to replay,
   * never back. So it stays that far behind every live session and the multicast cursor. Exactly the queued attachments
   * whose trains end below the cursor are released.
   */
  lemma RetentionTurn(states: seq<System>, steps: seq<Step>, i: nat, least: nat, z: System)
    requires Run(states, steps) && i < |states| && Next(states[i], StepRetain(least), z)
    ensures var x, x', links := states[i].snd, z.snd, states[i].links;
      && x'.rs1 == MovedUp(x.rs1, x.replay, least)
      && (x'.rs1 > x.rs1 ==> forall id :: id in links && links[id].alive ==> x'.rs1 + x.replay <= links[id].bufItNext)
      && exists n :: 0 <= n <= |x.cleanup|
           && x'.released == x.released + x.cleanup[..n] && x'.cleanup == x.cleanup[n..]
           && forall k :: 0 <= k < |x.cleanup| ==> (k < n <==> x.cleanup[k].s < x'.rs1)
  {
    Reachable(states, steps, i);
    RetainMoves(states[i], least, z);
  }

  lemma RetainMoves(y: System, least: nat, z: System)
    requires Inv(y) && Next(y, StepRetain(least), z)
    ensures var x, x' := y.snd, z.snd;
      && x'.rs1 == MovedUp(x.rs1, x.replay, least)
      && exists n :: 0 <= n <= |x.cleanup|
           && x'.released == x.released + x.cleanup[..n] && x'.cleanup == x.cleanup[n..]
           && forall k :: 0 <= k < |x.cleanup| ==> (k < n <==> x.cleanup[k].s < x'.rs1)
  {
    var x, x' := y.snd, z.snd;
    var newSeq := NewSeq(least, x.replay);
    var n := if x.leastIt == newSeq then 0 else Expired(x.cleanup, newSeq);
    assert x.released + x.cleanup[..0] == x.released;
    ExpiredIsAll(x.released, x.cleanup, newSeq);
    forall k | 0 <= k < |x.cleanup| ensures k < n <==> x.cleanup[k].s < x'.rs1 {
      assert x.cleanup[k].s >= x.rs1;
    }
  }

  lemma {:induction false} AscendingFits(q: seq<Cleanup>, lo: nat, hi: nat)
    requires Ascending(q) && (forall i :: 0 <= i < |q| ==> lo <= q[i].s < hi)
    ensures |q| == 0 || |q| <= hi - lo
    decreases |q|
  {
    if |q| > 0 {
      var last := q[|q| - 1].s;
      AscendingFits(q[..|q| - 1], lo, last);
    }
  }

  /**
   * In every run attachments handed to the cleanup queue are released in order, each at most once, and all of them
   * once the server has stopped; the queue is no longer than the log is ahead of the backup cursor. Until then one is
   * released only when no live session can still ask for any part of its train: such a request would be refused, and
   * nothing unsent belongs to it.
   */
  lemma AttachmentsReleasedOnce(states: seq<System>, steps: seq<Step>, i: nat)
    requires Run(states, steps) && i < |states|
    ensures var x, links := states[i].snd, states[i].links;
      && x.queued == x.released + x.cleanup && Ascending(x.queued) && |x.cleanup| <= |x.log| - x.rs1
      && (x.stopped ==> x.released == x.queued)
      && (!x.stopped ==> forall k, id :: 0 <= k < |x.released| && id in links && links[id].alive ==>
           && (forall r: Request :: r.s <= x.released[k].s ==> BadRequest(x, links[id], r))
           && (links[id].relic.Relic? ==> x.released[k].s < links[id].relic.from))
  {
    Reachable(states, steps, i);
    Retention(states, steps, i);
    var x := states[i].snd;
    forall a, b | 0 <= a < b < |x.cleanup| ensures x.cleanup[a].s < x.cleanup[b].s {
      assert x.cleanup[a] == x.queued[|x.released| + a] && x.cleanup[b] == x.queued[|x.released| + b];
    }
    AscendingFits(x.cleanup, x.rs1, |x.log|);
  }
}
