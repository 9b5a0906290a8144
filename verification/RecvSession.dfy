/** The receiving session as an object over a byte buffer: hmbdc/tips/reliable/BackupRecvSessionT.hpp. */
module RecvSession {
  import opened Common
  import opened Messages
  import opened Receiver
  import opened Frames

  // ---- what a session does with bytes ---------------------------------------------------------

  /** A session's state and everything it has written so far. */
  datatype Session = Session(recv: Recv, sent: seq<Command>)

  function TakeItem(t: Session, item: TcpItem): (t': Session)
    requires |t.recv.arb.j| == 2
    ensures |t'.recv.arb.j| == 2
  {
    var x := TakeFrame(t.recv, item);
    Session(x.recv, t.sent + x.sent)
  }

  function TakeAll(t: Session, items: seq<TcpItem>): (t': Session)
    requires |t.recv.arb.j| == 2
    ensures |t'.recv.arb.j| == 2
    decreases |items|
  {
    if items == [] then t else TakeAll(TakeItem(t, items[0]), items[1..])
  }

  /** Every frame in the buffer is empty or carries a message with its head. */
  predicate AllProper(bytes: seq<byte>)
    decreases |bytes|
  {
    Complete(bytes) ==> Proper(Head(bytes)) && AllProper(bytes[WireSize(bytes)..])
  }

  /** What becomes of a started session that takes every complete frame of `bytes`, and the bytes it keeps. */
  function Outcome(t: Session, bytes: seq<byte>): (t': Session)
    requires |t.recv.arb.j| == 2
    ensures |t'.recv.arb.j| == 2
    decreases |bytes|
  {
    if Complete(bytes) then Outcome(TakeItem(t, ItemOf(Head(bytes))), bytes[WireSize(bytes)..]) else t
  }

  function Leftover(bytes: seq<byte>): (r: seq<byte>)
    ensures !Complete(r)
    decreases |bytes|
  {
    if Complete(bytes) then Leftover(bytes[WireSize(bytes)..]) else bytes
  }

  lemma Unroll(t: Session, bytes: seq<byte>)
    requires |t.recv.arb.j| == 2 && AllProper(bytes) && Complete(bytes)
    ensures var tail := bytes[WireSize(bytes)..];
            && Proper(Head(bytes)) && AllProper(tail) && Leftover(bytes) == Leftover(tail)
            && Outcome(t, bytes) == Outcome(TakeItem(t, ItemOf(Head(bytes))), tail)
  {
  }

  /** The start sequence is read while the arbiter is unset. */
  predicate Starts(r: Recv, bytes: seq<byte>) { r.arb.expecting == SEQ_MAX && |bytes| >= START }

  function StartOf(r: Recv, bytes: seq<byte>): (r': Recv)
    requires |r.arb.j| == 2
    ensures |r'.arb.j| == 2
  {
    if Starts(r, bytes) then TakeFrame(r, StartSeq(Le(bytes[..START]))).recv else r
  }

  function Body(r: Recv, bytes: seq<byte>): seq<byte>
  {
    if Starts(r, bytes) then bytes[START..] else bytes
  }

  /** Frames are taken only once a start sequence has come. */
  predicate Readable(r: Recv, bytes: seq<byte>)
    requires |r.arb.j| == 2
  {
    StartOf(r, bytes).minSeq != SEQ_MAX ==> AllProper(Body(r, bytes))
  }

  function Consume(t: Session, bytes: seq<byte>): (t': Session)
    requires |t.recv.arb.j| == 2
    ensures |t'.recv.arb.j| == 2
  {
    var r := StartOf(t.recv, bytes);
    if r.minSeq != SEQ_MAX then Outcome(Session(r, t.sent), Body(t.recv, bytes)) else Session(r, t.sent)
  }

  function Kept(r: Recv, bytes: seq<byte>): seq<byte>
    requires |r.arb.j| == 2
  {
    if StartOf(r, bytes).minSeq != SEQ_MAX then Leftover(Body(r, bytes)) else Body(r, bytes)
  }

  lemma CompleteAt(buf: array<byte>, cur: nat, n: nat)
    requires cur + n <= buf.Length && n >= HEADER && n >= HEADER + Le16(buf[cur + 1], buf[cur + 2])
    ensures Complete(buf[cur..cur + n])
  {
  }

  lemma SliceOfSlice(buf: seq<byte>, cur: nat, n: nat, i: nat, k: nat)
    requires cur + n <= |buf| && i <= k <= n
    ensures buf[cur..cur + n][i..k] == buf[cur + i..cur + k]
  {
    var a, b := buf[cur..cur + n][i..k], buf[cur + i..cur + k];
    assert |a| == |b| && forall j :: 0 <= j < |b| ==> a[j] == b[j];
  }

  lemma HeadAt(buf: array<byte>, cur: nat, n: nat)
    requires cur + n <= buf.Length && Complete(buf[cur..cur + n])
    ensures var w := HEADER + Le16(buf[cur + 1], buf[cur + 2]);
            && w == WireSize(buf[cur..cur + n]) <= n
            && Frame(buf[cur], buf[cur + HEADER..cur + w]) == Head(buf[cur..cur + n])
            && buf[cur..cur + n][w..] == buf[cur + w..cur + n]
  {
    var bytes, w := buf[cur..cur + n], HEADER + Le16(buf[cur + 1], buf[cur + 2]);
    assert bytes[0] == buf[cur] && bytes[1] == buf[cur + 1] && bytes[2] == buf[cur + 2];
    SliceOfSlice(buf[..], cur, n, HEADER, w);
    SliceOfSlice(buf[..], cur, n, w, n);
    assert bytes[w..] == bytes[w..n];
  }

  // ---- the object -----------------------------------------------------------------------------

  class BackupRecvSession {
    const subs: set<Tag>
    const buf: array<byte>
    const seqArb: SeqArb.SingleThreadSeqArb
    var minSeq: nat
    var gapPending: bool
    var gapPendingSeq: nat
    var output: seq<Msg>
    var sent: seq<Command>
    var filledLen: nat

    ghost predicate Valid()
      reads this
    {
      && filledLen <= buf.Length && seqArb.j.Length == 2
      && (seqArb.j as object) != (buf as object)
    }

    ghost function State(): (r: Recv)
      requires Valid()
      reads this, seqArb, seqArb.j
      ensures |r.arb.j| == 2
    {
      Recv(subs, minSeq, seqArb.State(), gapPending, gapPendingSeq, output)
    }

    ghost function Net(): (t: Session)
      requires Valid()
      reads this, seqArb, seqArb.j
      ensures |t.recv.arb.j| == 2
    {
      Session(State(), sent)
    }

    ghost function Held(): seq<byte>
      requires Valid()
      reads this, buf
    {
      buf[..filledLen]
    }

    constructor (subscriptions: set<Tag>, bufSize: nat)
      ensures Valid() && fresh(buf) && fresh(seqArb) && fresh(seqArb.j)
      ensures State() == Fresh(subscriptions) && Held() == [] && sent == [] && buf.Length == bufSize
    {
      subs := subscriptions;
      var arb := new SeqArb.SingleThreadSeqArb(2, SEQ_MAX);
      seqArb := arb;
      buf := new byte[bufSize](_ => 0);
      minSeq := SEQ_MAX;
      gapPending := false;
      gapPendingSeq := 0;
      output := [];
      sent := [];
      filledLen := 0;
      new;
      assert seq(2, _ => 0) == [0, 0];
    }

    method SendGapReport(missSeq: nat, len: nat)
      requires Valid()
      modifies this`gapPending, this`gapPendingSeq, this`sent
      ensures Valid()
      ensures State() == Receiver.SendGapReport(old(State()), missSeq, len).0
      ensures sent == old(sent) + Receiver.SendGapReport(old(State()), missSeq, len).1
    {
      if !gapPending && missSeq != SEQ_MAX {
        sent := sent + [Report(missSeq, len)];
        if len != 0 {
          gapPendingSeq := missSeq + len - 1;
          gapPending := true;
        }
      }
    }

    method Arb(part: nat, s: nat) returns (code: int, ghost gap: nat)
      requires Valid() && part < 2
      modifies this`gapPending, this`gapPendingSeq, this`sent, seqArb, seqArb.j
      ensures Valid()
      ensures var x := ArbSeq(old(State()), part, s);
              State() == x.recv && code == x.code && gap == x.gap && sent == old(sent) + x.sent
    {
      gap := 0;
      if gapPending && part == 0 { return 0, 0; }
      var g: nat;
      code, g := seqArb.Present(part, s);
      gap := g;
      if code == 0 {
        var len := if seqArb.expecting <= SEQ_MAX then Minus64(s, seqArb.expecting) else 0;
        SendGapReport(seqArb.expecting, len);
      } else if s == gapPendingSeq {
        gapPending := false;
      }
    }

    /** One multicast item. */
    method AcceptItem(item: UdpItem) returns (code: int)
      requires Valid()
      modifies this`gapPending, this`gapPendingSeq, this`sent, this`output, seqArb, seqArb.j
      ensures Valid()
      ensures var x := Receiver.Accept(old(State()), item);
              State() == x.recv && code == x.code && sent == old(sent) + x.sent
    {
      match item
      case Data(s, m) =>
        ghost var gap: nat;
        code, gap := Arb(0, s);
        if code == 1 && UdpPasses(subs, m) { output := output + [m]; }
      case Alert(next) =>
        if gapPending {
          code := 0;
        } else {
          if seqArb.expecting < next { SendGapReport(seqArb.expecting, next - seqArb.expecting); }
          code := -1;
        }
      case Ad =>
        code := 1;
    }

    /** One frame of the backup connection: deliver it, then tick off whatever is expected. */
    method TakeOne(f: Frame)
      requires Valid() && Proper(f)
      modifies this`gapPending, this`gapPendingSeq, this`sent, this`output, seqArb, seqArb.j
      ensures Valid()
      ensures Net() == TakeItem(old(Net()), ItemOf(f))
    {
      if f.payload != [] {
        var tag := Le16(f.payload[6], f.payload[7]);
        if tag in subs { output := output + [Msg(tag, f.payload[HEAD..])]; }
      }
      if seqArb.expecting != SEQ_MAX {
        ghost var gap: nat;
        var code: int;
        code, gap := Arb(1, seqArb.expecting);
      }
    }

    /** Reads the start sequence if it is due; `cur` is where the unread bytes begin. */
    method TakeStart() returns (cur: nat)
      requires Valid()
      modifies this`minSeq, this`filledLen, seqArb`expecting
      ensures Valid() && Net() == Session(StartOf(old(State()), old(Held())), old(sent))
      ensures cur + filledLen <= buf.Length && buf[cur..cur + filledLen] == Body(old(State()), old(Held()))
    {
      cur := 0;
      if seqArb.expecting == SEQ_MAX && filledLen >= START {
        minSeq := Le(buf[..START]);
        cur := START;
        filledLen := filledLen - START;
        seqArb.expecting := minSeq;
        assert buf[..START] == old(Held())[..START];
      }
    }

    /** Takes the frame at `cur`. `t` and `bytes` are the session and its unread bytes before. */
    method TakeHead(cur: nat, ghost t: Session, ghost bytes: seq<byte>) returns (next: nat)
      requires Valid() && cur + filledLen <= buf.Length && t == Net() && bytes == buf[cur..cur + filledLen]
      requires Complete(bytes) && Proper(Head(bytes))
      modifies this`gapPending, this`gapPendingSeq, this`sent, this`output, this`filledLen, seqArb, seqArb.j
      ensures Valid() && next + filledLen <= buf.Length && filledLen < old(filledLen)
      ensures buf[next..next + filledLen] == bytes[WireSize(bytes)..]
      ensures Net() == TakeItem(t, ItemOf(Head(bytes)))
    {
      var wireSize := HEADER + Le16(buf[cur + 1], buf[cur + 2]);
      var f := Frame(buf[cur], buf[cur + HEADER..cur + wireSize]);
      HeadAt(buf, cur, filledLen);
      assert f == Head(bytes) && wireSize == WireSize(bytes) && bytes[wireSize..] == buf[cur + wireSize..cur + filledLen];
      TakeOne(f);
      next := cur + wireSize;
      filledLen := filledLen - wireSize;
    }

    /** The loop of `TakeFrames`. */
    method TakeComplete(first: nat) returns (cur: nat)
      requires Valid() && first + filledLen <= buf.Length && AllProper(buf[first..first + filledLen])
      modifies this`gapPending, this`gapPendingSeq, this`sent, this`output, this`filledLen, seqArb, seqArb.j
      ensures Valid() && cur + filledLen <= buf.Length
      ensures buf[cur..cur + filledLen] == Leftover(old(buf[first..first + filledLen]))
      ensures Net() == Outcome(old(Net()), old(buf[first..first + filledLen]))
    {
      cur := first;
      ghost var t, bytes := Net(), buf[first..first + filledLen];
      ghost var goal, rest := Outcome(t, bytes), Leftover(bytes);
      while filledLen >= HEADER && filledLen >= HEADER + Le16(buf[cur + 1], buf[cur + 2])
        invariant Valid() && cur + filledLen <= buf.Length
        invariant t == Net() && bytes == buf[cur..cur + filledLen]
        invariant AllProper(bytes) && Leftover(bytes) == rest && Outcome(t, bytes) == goal
        decreases filledLen
      {
        CompleteAt(buf, cur, filledLen);
        Unroll(t, bytes);
        cur := TakeHead(cur, t, bytes);
        t, bytes := TakeItem(t, ItemOf(Head(bytes))), bytes[WireSize(bytes)..];
      }
    }

    /** Takes every complete frame from `first` on; returns where the incomplete rest begins. */
    method TakeFrames(first: nat) returns (cur: nat)
      requires Valid() && first + filledLen <= buf.Length
      requires minSeq != SEQ_MAX ==> AllProper(buf[first..first + filledLen])
      modifies this`gapPending, this`gapPendingSeq, this`sent, this`output, this`filledLen, seqArb, seqArb.j
      ensures Valid() && cur + filledLen <= buf.Length
      ensures minSeq == SEQ_MAX ==>
                cur == first && filledLen == old(filledLen) && Net() == old(Net())
      ensures minSeq != SEQ_MAX ==>
                && buf[cur..cur + filledLen] == Leftover(old(buf[first..first + filledLen]))
                && Net() == Outcome(old(Net()), old(buf[first..first + filledLen]))
    {
      cur := first;
      if minSeq == SEQ_MAX { return; }
      cur := TakeComplete(first);
    }

    /** Moves the unread bytes to the front. */
    method MoveDown(cur: nat)
      requires Valid() && cur + filledLen <= buf.Length
      modifies buf
      ensures Held() == old(buf[cur..cur + filledLen])
    {
      ghost var rest := buf[cur..cur + filledLen];
      var k := 0;
      while k < filledLen
        invariant 0 <= k <= filledLen
        invariant forall m :: 0 <= m < k ==> buf[m] == rest[m]
        invariant forall m :: k <= m < filledLen ==> buf[cur + m] == rest[m]
      {
        buf[k] := buf[cur + k];
        k := k + 1;
      }
    }

    /** Adds to the buffer what the socket has, as far as there is room. */
    method Fill(input: Option<seq<byte>>) returns (ok: bool, ghost got: seq<byte>)
      requires Valid()
      modifies buf, this`filledLen
      ensures Valid() && old(filledLen) <= buf.Length && Held() == old(Held()) + got && (ok <==> input.None? || got != [])
      ensures if input.None? then got == [] else got <= input.value && |got| == Min(|input.value|, buf.Length - old(filledLen))
    {
      got := [];
      if input.None? { return true, []; }
      var l := Min(|input.value|, buf.Length - filledLen);
      if l == 0 { return false, []; }
      var i := 0;
      while i < l
        invariant 0 <= i <= l && filledLen == old(filledLen)
        invariant buf[..filledLen] == old(Held()) && buf[filledLen..filledLen + i] == input.value[..i]
      {
        buf[filledLen + i] := input.value[i];
        i := i + 1;
      }
      filledLen := filledLen + l;
      ok, got := true, input.value[..l];
    }

    /**
     * One read: take what is complete, move the rest to the front, then read more. `input` is what the socket
     * offers: nothing yet, the end of the stream, or bytes, of which the free space is filled.
     */
    method DoRead(input: Option<seq<byte>>) returns (ok: bool, ghost got: seq<byte>)
      requires Valid() && Readable(State(), Held())
      modifies this, buf, seqArb, seqArb.j
      ensures Valid()
      ensures Net() == Consume(old(Net()), old(Held()))
      ensures Held() == Kept(old(State()), old(Held())) + got
      ensures |Kept(old(State()), old(Held()))| <= buf.Length && (ok <==> input.None? || got != [])
      ensures if input.None? then got == []
              else got <= input.value && |got| == Min(|input.value|, buf.Length - |Kept(old(State()), old(Held()))|)
    {
      var first := TakeStart();
      var cur := TakeFrames(first);
      MoveDown(cur);
      ok, got := Fill(input);
    }
  }

  // ---- chunks ---------------------------------------------------------------------------------

  /** Taking frames off the buffer one by one is the fold over the frames the parser finds. */
  lemma {:induction false} OutcomeIsFold(t: Session, bytes: seq<byte>)
    requires |t.recv.arb.j| == 2
    ensures Outcome(t, bytes) == TakeAll(t, ItemsOf(Parse(bytes).frames)) && Leftover(bytes) == Parse(bytes).rest
    decreases |bytes|
  {
    if Complete(bytes) {
      var fs := Parse(bytes).frames;
      OutcomeIsFold(TakeItem(t, ItemOf(Head(bytes))), bytes[WireSize(bytes)..]);
      assert fs[1..] == Parse(bytes[WireSize(bytes)..]).frames;
      assert ItemsOf(fs)[1..] == ItemsOf(fs[1..]);
    }
  }

  lemma {:induction false} OutcomeInTwo(t: Session, a: seq<byte>, b: seq<byte>)
    requires |t.recv.arb.j| == 2
    ensures Outcome(t, a + b) == Outcome(Outcome(t, a), Leftover(a) + b)
    ensures Leftover(a + b) == Leftover(Leftover(a) + b)
    decreases |a|
  {
    if Complete(a) {
      CompleteStays(a, b);
      OutcomeInTwo(TakeItem(t, ItemOf(Head(a))), a[WireSize(a)..], b);
    }
  }

  /** Each frame moves the arbiter on by one. */
  lemma {:induction false} FramesAdvance(t: Session, bytes: seq<byte>)
    requires |t.recv.arb.j| == 2 && t.recv.arb.expecting + |Parse(bytes).frames| < SEQ_MAX
    ensures Outcome(t, bytes).recv.arb.expecting == t.recv.arb.expecting + |Parse(bytes).frames|
    ensures Outcome(t, bytes).recv.minSeq == t.recv.minSeq
    decreases |bytes|
  {
    if Complete(bytes) {
      FramesAdvance(TakeItem(t, ItemOf(Head(bytes))), bytes[WireSize(bytes)..]);
    }
  }

  /** The stream stays below the sentinel: a log never reaches 2^48 entries. */
  predicate Sane(r: Recv, bytes: seq<byte>)
  {
    if r.arb.expecting == SEQ_MAX
    then r.minSeq == SEQ_MAX && (|bytes| >= START ==> Le(bytes[..START]) + |Parse(bytes[START..]).frames| < SEQ_MAX)
    else r.minSeq != SEQ_MAX && r.arb.expecting + |Parse(bytes).frames| < SEQ_MAX
  }

  /** A session that takes what it has, then reads the chunks one after another. */
  function FeedSession(t: Session, kept: seq<byte>, chunks: seq<seq<byte>>): (Session, seq<byte>)
    requires |t.recv.arb.j| == 2
    decreases |chunks|
  {
    var t', rest := Consume(t, kept), Kept(t.recv, kept);
    if chunks == [] then (t', rest) else FeedSession(t', rest + chunks[0], chunks[1..])
  }

  lemma SaneInTwo(t: Session, a: seq<byte>, b: seq<byte>)
    requires |t.recv.arb.j| == 2 && Sane(t.recv, a + b)
    ensures Sane(Consume(t, a).recv, Kept(t.recv, a) + b)
    ensures Consume(t, a + b) == Consume(Consume(t, a), Kept(t.recv, a) + b)
    ensures Kept(t.recv, a + b) == Kept(Consume(t, a).recv, Kept(t.recv, a) + b)
  {
    var r, a', t1 := StartOf(t.recv, a), Body(t.recv, a), Session(StartOf(t.recv, a), t.sent);
    if t.recv.arb.expecting != SEQ_MAX || |a| >= START {
      assert Starts(t.recv, a) ==> (a + b)[..START] == a[..START] && (a + b)[START..] == a' + b;
      OutcomeInTwo(t1, a', b);
      ParseInTwo(a', b);
      OutcomeIsFold(t1, a');
      FramesAdvance(t1, a');
    }
  }

  /** However the stream is cut, the session ends in the same state, with the same bytes kept and the same commands sent. */
  lemma {:induction false} ChunkingDoesNotMatterToTheSession(t: Session, kept: seq<byte>, chunks: seq<seq<byte>>)
    requires |t.recv.arb.j| == 2 && Sane(t.recv, kept + Joined(chunks))
    ensures FeedSession(t, kept, chunks) == (Consume(t, kept + Joined(chunks)), Kept(t.recv, kept + Joined(chunks)))
    decreases |chunks|
  {
    var all := Joined(chunks);
    SaneInTwo(t, kept, all);
    if chunks == [] {
      assert kept + all == kept;
    } else {
      var t', rest := Consume(t, kept), Kept(t.recv, kept);
      assert rest + all == rest + chunks[0] + Joined(chunks[1..]);
      ChunkingDoesNotMatterToTheSession(t', rest + chunks[0], chunks[1..]);
    }
  }

  /** A sender's stream is taken for the items it encodes, from the start sequence on. */
  lemma StreamCarriesTheItems(subs: set<Tag>, m: nat, fs: seq<Frame>)
    requires m + |fs| < SEQ_MAX && forall i :: 0 <= i < |fs| ==> Fits(fs[i])
    ensures var t := Session(Fresh(subs), []);
            Consume(t, ToLe(m, START) + EncodeAll(fs)) == TakeAll(t, [StartSeq(m)] + ItemsOf(fs))
  {
    var t, bytes := Session(Fresh(subs), []), ToLe(m, START) + EncodeAll(fs);
    assert bytes[..START] == ToLe(m, START) && bytes[START..] == EncodeAll(fs) + [];
    StartSeqSurvives(m);
    ParseOfEncoding(fs, []);
    var t1 := Session(StartOf(t.recv, bytes), []);
    OutcomeIsFold(t1, EncodeAll(fs) + []);
    assert ([StartSeq(m)] + ItemsOf(fs))[1..] == ItemsOf(fs);
    assert TakeItem(t, StartSeq(m)) == t1;
  }
}
