/**
 * A turn of the sending session as steps of the protocol: hmbdc/tips/reliable/BackupSendSessionT.hpp, lines 118-210.
 * The protocol hands over whole frames; the kernel takes bytes. A frame counts as sent when its last byte is taken.
 */
module SendPath {
  import opened Common
  import opened Messages
  import opened Receiver
  import opened Sender
  import opened Requests
  import opened Invariants
  import opened SendBytes
  import C = Commands

  /** The session's fields, the bytes handed over and not taken by the kernel, and those taken. */
  datatype Desk = Desk(subs: set<Tag>, ready: bool, queue: seq<Request>, bufIt: nat, bufItNext: nat, rest: seq<byte>, wire: seq<byte>)

  predicate IsSuffix(a: seq<byte>, all: seq<byte>) { |a| <= |all| && all[|all| - |a|..] == a }

  /** With `left` bytes to go none of the `n` frames from `from` on is sent, but all before it are. */
  ghost predicate LeftOf(slots: seq<Slot>, subs: set<Tag>, flag: byte, from: nat, n: nat, left: nat)
    requires |slots| > 0
  {
    n > 0 && |RangeBytes(slots, subs, flag, from + 1, n - 1)| < left <= |RangeBytes(slots, subs, flag, from, n)|
  }

  function From(l: Link): nat { if l.relic.Relic? then l.relic.from else 0 }

  /** The frames handed over and not sent, in full. */
  function Begun(slots: seq<Slot>, flag: byte, d: Desk, l: Link): seq<byte>
    requires |slots| > 0
  {
    RangeBytes(slots, d.subs, flag, From(l), RelicSize(l.relic))
  }

  /** The object's fields are the link's. */
  predicate SameFields(d: Desk, l: Link)
  {
    l.alive && d.subs == l.clientSubs && d.ready == l.ready && d.queue == l.queue && d.bufItNext == l.bufItNext
  }

  /** What is left to send are the last bytes of the frames handed over, from the first one not sent on. */
  ghost predicate RestIs(slots: seq<Slot>, flag: byte, d: Desk, l: Link)
    requires |slots| > 0
  {
    match l.relic
    case NoRelic => d.rest == []
    case Relic(from, to) => to == d.bufIt && LeftOf(slots, d.subs, flag, from, RelicSize(l.relic), |d.rest|)
  }

  /** The object is at the protocol's link `l`. */
  ghost predicate Tracks(slots: seq<Slot>, flag: byte, d: Desk, l: Link)
    requires |slots| > 0
  {
    SameFields(d, l) && RestIs(slots, flag, d, l) && IsSuffix(Begun(slots, flag, d, l), d.wire + d.rest)
  }

  /** The frames sent, in full. */
  function Sent(slots: seq<Slot>, flag: byte, d: Desk, l: Link): seq<byte>
    requires |slots| > 0
  {
    Without(d.wire + d.rest, Begun(slots, flag, d, l))
  }

  /** The stream before its last `|all|` bytes. */
  function Without(stream: seq<byte>, all: seq<byte>): seq<byte>
  {
    if |all| <= |stream| then stream[..|stream| - |all|] else []
  }

  predicate AllFit(fs: seq<F.Frame>) { forall i :: 0 <= i < |fs| ==> F.Fits(fs[i]) }

  /** These bytes are the encoding of these items. */
  ghost predicate Carries(bytes: seq<byte>, items: seq<TcpItem>)
  {
    exists fs: seq<F.Frame> :: AllFit(fs) && F.EncodeAll(fs) == bytes && F.ItemsOf(fs) == items
  }

  // ---- cutting a range at a byte --------------------------------------------------------------

  lemma RangeCut(slots: seq<Slot>, subs: set<Tag>, flag: byte, from: nat, t: nat, n: nat)
    requires |slots| > 0 && t <= n
    ensures RangeBytes(slots, subs, flag, from, n) == RangeBytes(slots, subs, flag, from, t) + RangeBytes(slots, subs, flag, from + t, n - t)
  {
    CutGathered(PieceAt(slots, subs, flag), from, t, n);
  }

  /** Which of `n` frames the first byte left belongs to. */
  lemma {:induction false} CutAt(slots: seq<Slot>, subs: set<Tag>, flag: byte, from: nat, n: nat, left: nat) returns (t: nat)
    requires |slots| > 0 && 0 < left <= |RangeBytes(slots, subs, flag, from, n)|
    ensures t < n && LeftOf(slots, subs, flag, from + t, n - t, left)
    decreases n
  {
    if |RangeBytes(slots, subs, flag, from + 1, n - 1)| < left {
      t := 0;
    } else {
      var t' := CutAt(slots, subs, flag, from + 1, n - 1, left);
      t := t' + 1;
      assert from + t == from + 1 + t' && n - t == n - 1 - t';
    }
  }

  // ---- bytes and items ------------------------------------------------------------------------

  lemma RangeCarries(slots: seq<Slot>, subs: set<Tag>, flag: byte, from: nat, n: nat)
    requires Framed(slots)
    ensures Carries(RangeBytes(slots, subs, flag, from, n), Frames(Entries(slots), subs, from, from + n))
  {
    BytesAreTheFrames(slots, subs, flag, from, n);
    FramesAreTheItems(slots, subs, flag, from, n);
    var fs := FramesSent(slots, subs, flag, from, n);
    assert F.EncodeAll(fs) == RangeBytes(slots, subs, flag, from, n);
  }

  lemma {:induction false} EncodeConcat(a: seq<F.Frame>, b: seq<F.Frame>)
    requires AllFit(a) && AllFit(b)
    ensures AllFit(a + b)
    ensures F.EncodeAll(a + b) == F.EncodeAll(a) + F.EncodeAll(b) && F.ItemsOf(a + b) == F.ItemsOf(a) + F.ItemsOf(b)
    decreases |a|
  {
    if a == [] {
      assert a + b == b;
    } else {
      assert (a + b)[1..] == a[1..] + b;
      EncodeConcat(a[1..], b);
      Regroup(F.Encode(a[0]), F.EncodeAll(a[1..]), F.EncodeAll(b));
    }
  }

  lemma CarriesMore(a: seq<byte>, i: seq<TcpItem>, b: seq<byte>, j: seq<TcpItem>)
    requires Carries(a, i) && Carries(b, j)
    ensures Carries(a + b, i + j)
  {
    var fs: seq<F.Frame> :| AllFit(fs) && F.EncodeAll(fs) == a && F.ItemsOf(fs) == i;
    var gs: seq<F.Frame> :| AllFit(gs) && F.EncodeAll(gs) == b && F.ItemsOf(gs) == j;
    EncodeConcat(fs, gs);
    var hs := fs + gs;
    assert AllFit(hs) && F.EncodeAll(hs) == a + b && F.ItemsOf(hs) == i + j;
  }

  // ---- one step -------------------------------------------------------------------------------

  /** The ring the session reads is the protocol's. */
  ghost predicate SameRing(x: Sender, slots: seq<Slot>, cap: nat, readSeq: nat)
  {
    Framed(slots) && x.slots == Entries(slots) && x.cap == cap && x.rs0 == readSeq
  }

  /** `items` went down the connection and their encoding is what was sent meanwhile. */
  ghost predicate Advances(slots: seq<Slot>, flag: byte, d: Desk, l: Link, d': Desk, l': Link)
    requires |slots| > 0
  {
    && Tracks(slots, flag, d, l) && Tracks(slots, flag, d', l')
    && Sent(slots, flag, d, l) <= Sent(slots, flag, d', l') && l.down <= l'.down
    && Carries(Sent(slots, flag, d', l')[|Sent(slots, flag, d, l)|..], l'.down[|l.down|..])
    && l'.recv == l.recv && l'.held == l.held
  }

  /** The last part of a stream's end is an end of it too. */
  lemma Streams(stream: seq<byte>, all: seq<byte>, sent: seq<byte>, left: seq<byte>)
    requires all == sent + left && IsSuffix(all, stream)
    ensures IsSuffix(left, stream) && Without(stream, left) == Without(stream, all) + sent
  {
    var w := Without(stream, all);
    assert stream == w + all;
    assert stream == (w + sent) + left;
  }

  /** Sending the frames of `t` sequences from `a` on. */
  lemma SendsRange(slots: seq<Slot>, flag: byte, d: Desk, l: Link, d': Desk, l': Link, a: nat, t: nat)
    requires Framed(slots) && Tracks(slots, flag, d, l) && Tracks(slots, flag, d', l')
    requires Sent(slots, flag, d', l') == Sent(slots, flag, d, l) + RangeBytes(slots, d.subs, flag, a, t)
    requires l'.down == l.down + Frames(Entries(slots), d.subs, a, a + t) && l'.recv == l.recv && l'.held == l.held
    ensures Advances(slots, flag, d, l, d', l')
  {
    RangeCarries(slots, d.subs, flag, a, t);
    var w, more := Sent(slots, flag, d, l), RangeBytes(slots, d.subs, flag, a, t);
    assert (w + more)[|w|..] == more;
    assert l'.down[|l.down|..] == Frames(Entries(slots), d.subs, a, a + t);
  }

  /** The kernel took some of what was left over, to the end of the first `t` frames or into the next. */
  lemma FlushTracks(slots: seq<Slot>, flag: byte, d: Desk, l: Link, d': Desk, l': Link, t: nat)
    requires |slots| > 0 && Tracks(slots, flag, d, l) && l.relic.Relic? && t <= RelicSize(l.relic)
    requires l' == l.(down := l'.down, relic := l'.relic, bufItNext := d'.bufItNext)
    requires d' == d.(rest := d'.rest, wire := d'.wire, bufItNext := d'.bufItNext) && d'.wire + d'.rest == d.wire + d.rest
    requires if t == RelicSize(l.relic) then l'.relic == NoRelic && d'.rest == []
             else l'.relic == Relic(l.relic.from + t, l.relic.to)
                  && LeftOf(slots, d.subs, flag, l.relic.from + t, RelicSize(l.relic) - t, |d'.rest|)
    ensures Tracks(slots, flag, d', l')
    ensures Sent(slots, flag, d', l') == Sent(slots, flag, d, l) + RangeBytes(slots, d.subs, flag, l.relic.from, t)
  {
    FlushRest(slots, flag, d, l, d', l', t);
    FlushLeaves(slots, flag, d, l, d', l', t);
  }

  lemma FlushRest(slots: seq<Slot>, flag: byte, d: Desk, l: Link, d': Desk, l': Link, t: nat)
    requires |slots| > 0 && RestIs(slots, flag, d, l) && l.relic.Relic? && t <= RelicSize(l.relic)
    requires d'.subs == d.subs && d'.bufIt == d.bufIt
    requires if t == RelicSize(l.relic) then l'.relic == NoRelic && d'.rest == []
             else l'.relic == Relic(l.relic.from + t, l.relic.to)
                  && LeftOf(slots, d.subs, flag, l.relic.from + t, RelicSize(l.relic) - t, |d'.rest|)
    ensures RestIs(slots, flag, d', l')
  {
    if t < RelicSize(l.relic) { assert RelicSize(l'.relic) == RelicSize(l.relic) - t; }
  }

  lemma BegunIs(slots: seq<Slot>, flag: byte, d: Desk, l: Link, from: nat, n: nat)
    requires |slots| > 0 && l.relic == if n == 0 then NoRelic else Relic(from, from + n)
    ensures Begun(slots, flag, d, l) == RangeBytes(slots, d.subs, flag, from, n)
  {
    if n > 0 { assert RelicSize(l.relic) == n; }
  }

  lemma FlushLeaves(slots: seq<Slot>, flag: byte, d: Desk, l: Link, d': Desk, l': Link, t: nat)
    requires |slots| > 0 && IsSuffix(Begun(slots, flag, d, l), d.wire + d.rest) && d'.subs == d.subs
    requires l.relic.Relic? && t <= RelicSize(l.relic) && d'.wire + d'.rest == d.wire + d.rest
    requires if t == RelicSize(l.relic) then l'.relic == NoRelic
             else l.relic.from + t < l.relic.to && l'.relic == Relic(l.relic.from + t, l.relic.to)
    ensures IsSuffix(Begun(slots, flag, d', l'), d'.wire + d'.rest)
    ensures Sent(slots, flag, d', l') == Sent(slots, flag, d, l) + RangeBytes(slots, d.subs, flag, l.relic.from, t)
  {
    var from, n := l.relic.from, RelicSize(l.relic);
    RangeCut(slots, d.subs, flag, from, t, n);
    BegunIs(slots, flag, d', l', from + t, n - t);
    Leaves(slots, flag, d, l, d', l', RangeBytes(slots, d.subs, flag, from, t), RangeBytes(slots, d.subs, flag, from + t, n - t));
  }

  lemma Leaves(slots: seq<Slot>, flag: byte, d: Desk, l: Link, d': Desk, l': Link, sent: seq<byte>, left: seq<byte>)
    requires |slots| > 0 && IsSuffix(Begun(slots, flag, d, l), d.wire + d.rest) && d'.wire + d'.rest == d.wire + d.rest
    requires Begun(slots, flag, d, l) == sent + left && Begun(slots, flag, d', l') == left
    ensures IsSuffix(Begun(slots, flag, d', l'), d'.wire + d'.rest)
    ensures Sent(slots, flag, d', l') == Sent(slots, flag, d, l) + sent
  {
    Streams(d.wire + d.rest, sent + left, sent, left);
  }

  /** The protocol's link after the kernel took `t` more frames of what was left over. */
  function Flushed(x: Sender, l: Link, t: nat): Link
    requires |x.slots| > 0
  {
    var done := t == RelicSize(l.relic);
    l.(down := l.down + Frames(x.slots, l.clientSubs, From(l), From(l) + t),
       relic := if done then NoRelic else Relic(From(l) + t, From(l) + RelicSize(l.relic)),
       bufItNext := if done then From(l) + t else l.bufItNext)
  }

  lemma FlushedIsApplied(x: Sender, l: Link, t: nat)
    requires |l.recv.arb.j| == 2 && |x.slots| > 0 && l.alive && l.relic.Relic? && l.relic.from < l.relic.to && t <= RelicSize(l.relic)
    ensures Enabled(x, l, FlushRelic(t)) && Apply(x, l, FlushRelic(t)) == Flushed(x, l, t)
  {
  }

  lemma FlushAdvances(x: Sender, slots: seq<Slot>, cap: nat, readSeq: nat, flag: byte, d: Desk, l: Link, d': Desk) returns (t: nat)
    requires SameRing(x, slots, cap, readSeq) && Tracks(slots, flag, d, l) && l.relic.Relic?
    requires d' == d.(rest := d'.rest, wire := d'.wire, bufItNext := d'.bufItNext)
    requires d'.wire + d'.rest == d.wire + d.rest && |d'.rest| <= |d.rest|
    requires d'.bufItNext == if d'.rest == [] then d.bufIt else d.bufItNext
    ensures t <= RelicSize(l.relic) && Advances(slots, flag, d, l, d', Flushed(x, l, t))
  {
    t := RelicSize(l.relic);
    if d'.rest != [] { t := CutAt(slots, d.subs, flag, l.relic.from, t, |d'.rest|); }
    FlushTracks(slots, flag, d, l, d', Flushed(x, l, t), t);
    SendsRange(slots, flag, d, l, d', Flushed(x, l, t), l.relic.from, t);
  }

  lemma FlushIsAStep(x: Sender, slots: seq<Slot>, cap: nat, readSeq: nat, flag: byte, d: Desk, l: Link, d': Desk) returns (op: LinkOp)
    requires SameRing(x, slots, cap, readSeq) && |l.recv.arb.j| == 2 && Tracks(slots, flag, d, l) && d.rest != []
    requires d' == d.(rest := d'.rest, wire := d'.wire, bufItNext := d'.bufItNext)
    requires d'.wire + d'.rest == d.wire + d.rest && |d'.rest| <= |d.rest|
    requires d'.bufItNext == if d'.rest == [] then d.bufIt else d.bufItNext
    ensures Enabled(x, l, op) && Onward(l, Apply(x, l, op))
    ensures Advances(slots, flag, d, l, d', Apply(x, l, op))
  {
    var t := FlushAdvances(x, slots, cap, readSeq, flag, d, l, d');
    op := FlushRelic(t);
    FlushedIsApplied(x, l, t);
  }

  /** A batch of `k` frames was handed over and the kernel took bytes to the end of the first `t` or into the next. */
  lemma BatchTracks(slots: seq<Slot>, flag: byte, d: Desk, l: Link, d': Desk, l': Link, k: nat, t: nat)
    requires |slots| > 0 && Tracks(slots, flag, d, l) && l.relic == NoRelic && d.queue != [] && t <= k <= d.queue[0].len
    requires d' == d.(queue := d'.queue, rest := d'.rest, wire := d'.wire, bufIt := d.queue[0].s + k, bufItNext := d'.bufItNext)
    requires l' == l.(down := l'.down, relic := l'.relic, queue := d'.queue, bufItNext := d'.bufItNext)
    requires d'.wire + d'.rest == d.wire + RangeBytes(slots, d.subs, flag, d.queue[0].s, k)
    requires if t == k then l'.relic == NoRelic && d'.rest == []
             else l'.relic == Relic(d.queue[0].s + t, d.queue[0].s + k)
                  && LeftOf(slots, d.subs, flag, d.queue[0].s + t, k - t, |d'.rest|)
    ensures Tracks(slots, flag, d', l')
    ensures Sent(slots, flag, d', l') == Sent(slots, flag, d, l) + RangeBytes(slots, d.subs, flag, d.queue[0].s, t)
  {
    BatchSendsRange(slots, flag, d, l, d', l', d.queue[0].s, k, t);
  }

  lemma BatchSendsRange(slots: seq<Slot>, flag: byte, d: Desk, l: Link, d': Desk, l': Link, s: nat, k: nat, t: nat)
    requires |slots| > 0 && l.relic == NoRelic && d.rest == [] && d'.subs == d.subs && t <= k
    requires d'.wire + d'.rest == d.wire + RangeBytes(slots, d.subs, flag, s, k)
    requires l'.relic == if t == k then NoRelic else Relic(s + t, s + k)
    ensures IsSuffix(Begun(slots, flag, d', l'), d'.wire + d'.rest)
    ensures Sent(slots, flag, d', l') == Sent(slots, flag, d, l) + RangeBytes(slots, d.subs, flag, s, t)
  {
    RangeCut(slots, d.subs, flag, s, t, k);
    BegunIs(slots, flag, d', l', s + t, k - t);
    BatchSends(slots, flag, d, l, d', l', RangeBytes(slots, d.subs, flag, s, k), RangeBytes(slots, d.subs, flag, s, t),
               RangeBytes(slots, d.subs, flag, s + t, k - t));
  }

  lemma BatchSends(slots: seq<Slot>, flag: byte, d: Desk, l: Link, d': Desk, l': Link, all: seq<byte>, sent: seq<byte>, left: seq<byte>)
    requires |slots| > 0 && l.relic == NoRelic && d.rest == []
    requires d'.wire + d'.rest == d.wire + all && all == sent + left && Begun(slots, flag, d', l') == left
    ensures IsSuffix(Begun(slots, flag, d', l'), d'.wire + d'.rest)
    ensures Sent(slots, flag, d', l') == Sent(slots, flag, d, l) + sent
  {
    BatchLeaves(slots, flag, d, l, d'.wire + d'.rest, all);
    Streams(d'.wire + d'.rest, all, sent, left);
  }

  lemma BatchLeaves(slots: seq<Slot>, flag: byte, d: Desk, l: Link, stream: seq<byte>, all: seq<byte>)
    requires |slots| > 0 && l.relic == NoRelic && d.rest == [] && stream == d.wire + all
    ensures IsSuffix(all, stream) && Without(stream, all) == d.wire == Sent(slots, flag, d, l)
  {
    assert Begun(slots, flag, d, l) == [] && d.wire + d.rest == d.wire;
  }

  /** The protocol's link after `k` frames of the first request were handed over and the kernel took `t`. */
  function Batched(x: Sender, l: Link, k: nat, t: nat): Link
    requires |x.slots| > 0 && l.queue != [] && k <= l.queue[0].len
  {
    var s := l.queue[0].s;
    l.(queue := Remaining(l.queue, k), down := l.down + Frames(x.slots, l.clientSubs, s, s + t),
       relic := if t == k then NoRelic else Relic(s + t, s + k),
       bufItNext := if t == k then s + k else l.bufItNext)
  }

  lemma BatchedIsApplied(x: Sender, l: Link, k: nat, t: nat)
    requires |l.recv.arb.j| == 2 && |x.slots| > 0 && l.alive && l.relic == NoRelic && l.queue != []
    requires !BadRequest(x, l, l.queue[0]) && 1 <= k <= l.queue[0].len && t <= k
    ensures Enabled(x, l, Serve(k, t)) && Apply(x, l, Serve(k, t)) == Batched(x, l, k, t)
  {
  }

  /** Up to where the kernel took the batch. */
  lemma BatchCut(slots: seq<Slot>, flag: byte, d: Desk, d': Desk, k: nat) returns (t: nat)
    requires |slots| > 0 && d.queue != [] && |d'.rest| <= |RangeBytes(slots, d.subs, flag, d.queue[0].s, k)|
    ensures t <= k && (t == k <==> d'.rest == [])
    ensures t < k ==> LeftOf(slots, d.subs, flag, d.queue[0].s + t, k - t, |d'.rest|)
  {
    t := k;
    if d'.rest != [] { t := CutAt(slots, d.subs, flag, d.queue[0].s, k, |d'.rest|); }
  }

  lemma BatchAdvances(x: Sender, slots: seq<Slot>, cap: nat, readSeq: nat, flag: byte, d: Desk, l: Link, d': Desk, k: nat) returns (t: nat)
    requires SameRing(x, slots, cap, readSeq) && Tracks(slots, flag, d, l) && l.relic == NoRelic
    requires d.queue != [] && 1 <= k <= d.queue[0].len
    requires d' == d.(queue := Remaining(d.queue, k), rest := d'.rest, wire := d'.wire, bufIt := d.queue[0].s + k, bufItNext := d'.bufItNext)
    requires d'.bufItNext == if d'.rest == [] then d'.bufIt else d.bufItNext
    requires var all := RangeBytes(slots, d.subs, flag, d.queue[0].s, k); d'.wire + d'.rest == d.wire + all && |d'.rest| <= |all|
    ensures t <= k && Advances(slots, flag, d, l, d', Batched(x, l, k, t))
  {
    t := BatchCut(slots, flag, d, d', k);
    BatchTracks(slots, flag, d, l, d', Batched(x, l, k, t), k, t);
    SendsRange(slots, flag, d, l, d', Batched(x, l, k, t), d.queue[0].s, t);
  }

  lemma BatchIsAStep(x: Sender, slots: seq<Slot>, cap: nat, readSeq: nat, flag: byte, d: Desk, l: Link, d': Desk, k: nat) returns (op: LinkOp)
    requires SameRing(x, slots, cap, readSeq) && |l.recv.arb.j| == 2 && Tracks(slots, flag, d, l) && d.rest == []
    requires d.queue != [] && !BadRequest(x, l, d.queue[0]) && 1 <= k <= d.queue[0].len
    requires d' == d.(queue := Remaining(d.queue, k), rest := d'.rest, wire := d'.wire, bufIt := d.queue[0].s + k, bufItNext := d'.bufItNext)
    requires d'.bufItNext == if d'.rest == [] then d'.bufIt else d.bufItNext
    requires var all := RangeBytes(slots, d.subs, flag, d.queue[0].s, k); d'.wire + d'.rest == d.wire + all && |d'.rest| <= |all|
    ensures Enabled(x, l, op) && Onward(l, Apply(x, l, op))
    ensures Advances(slots, flag, d, l, d', Apply(x, l, op))
  {
    var t := BatchAdvances(x, slots, cap, readSeq, flag, d, l, d', k);
    op := Serve(k, t);
    BatchedIsApplied(x, l, k, t);
  }

  /** A progress report was taken off the queue. */
  lemma ProgressIsAStep(x: Sender, slots: seq<Slot>, cap: nat, readSeq: nat, flag: byte, d: Desk, l: Link)
    requires SameRing(x, slots, cap, readSeq) && |l.recv.arb.j| == 2 && Tracks(slots, flag, d, l) && d.rest == []
    requires d.queue != [] && !BadRequest(x, l, d.queue[0]) && d.queue[0].len == 0
    ensures Enabled(x, l, Serve(0, 0)) && Onward(l, Apply(x, l, Serve(0, 0)))
    ensures Advances(slots, flag, d, l, d.(queue := d.queue[1..], bufItNext := d.queue[0].s), Apply(x, l, Serve(0, 0)))
  {
    var d', l' := d.(queue := d.queue[1..], bufItNext := d.queue[0].s), Apply(x, l, Serve(0, 0));
    NothingSent(slots, flag, d, l, d', l');
  }

  lemma NothingSent(slots: seq<Slot>, flag: byte, d: Desk, l: Link, d': Desk, l': Link)
    requires |slots| > 0 && Tracks(slots, flag, d, l) && Tracks(slots, flag, d', l')
    requires Sent(slots, flag, d', l') == Sent(slots, flag, d, l) && l'.down == l.down && l'.recv == l.recv && l'.held == l.held
    ensures Advances(slots, flag, d, l, d', l')
  {
    NothingCarried();
    var w := Sent(slots, flag, d, l);
    assert w[|w|..] == [] && l.down[|l.down|..] == [];
  }

  lemma NothingCarried()
    ensures Carries([], [])
  {
    var none: seq<F.Frame> := [];
    assert F.EncodeAll(none) == [] && F.ItemsOf(none) == [];
  }

  // ---- paths ----------------------------------------------------------------------------------

  /** The steps `ops` lead from `l` to `l'`, as the object got from `d` to `d'`. */
  ghost predicate Follows(x: Sender, slots: seq<Slot>, flag: byte, d: Desk, l: Link, ops: seq<LinkOp>, d': Desk, l': Link)
    requires |slots| > 0
  {
    Performs(x, l, ops, l') && Advances(slots, flag, d, l, d', l')
  }

  lemma Stays(x: Sender, slots: seq<Slot>, flag: byte, d: Desk, l: Link)
    requires |slots| > 0 && Tracks(slots, flag, d, l)
    ensures Follows(x, slots, flag, d, l, [], d, l)
  {
    NothingSent(slots, flag, d, l, d, l);
  }

  lemma TailOfTail<T>(a: seq<T>, b: seq<T>, c: seq<T>)
    requires a <= b <= c
    ensures a <= c && c[|a|..] == b[|a|..] + c[|b|..]
  {
  }

  lemma AdvancesMore(slots: seq<Slot>, flag: byte, d: Desk, l: Link, d1: Desk, l1: Link, d2: Desk, l2: Link)
    requires |slots| > 0 && Advances(slots, flag, d, l, d1, l1) && Advances(slots, flag, d1, l1, d2, l2)
    ensures Advances(slots, flag, d, l, d2, l2)
  {
    var a, b, c := Sent(slots, flag, d, l), Sent(slots, flag, d1, l1), Sent(slots, flag, d2, l2);
    TailOfTail(a, b, c);
    TailOfTail(l.down, l1.down, l2.down);
    CarriesMore(b[|a|..], l1.down[|l.down|..], c[|b|..], l2.down[|l1.down|..]);
  }

  lemma FollowsMore(x: Sender, slots: seq<Slot>, flag: byte, d: Desk, l: Link, ops: seq<LinkOp>, d1: Desk, l1: Link,
                    more: seq<LinkOp>, d2: Desk, l2: Link)
    requires |slots| > 0 && Follows(x, slots, flag, d, l, ops, d1, l1) && Follows(x, slots, flag, d1, l1, more, d2, l2)
    ensures Follows(x, slots, flag, d, l, ops + more, d2, l2)
  {
    LeadsOn(LinkStep(x), l, ops, l1, more, l2);
    AdvancesMore(slots, flag, d, l, d1, l1, d2, l2);
  }

  lemma FollowsStep(x: Sender, slots: seq<Slot>, flag: byte, d: Desk, l: Link, op: LinkOp, d': Desk)
    requires |slots| > 0 && Enabled(x, l, op) && Advances(slots, flag, d, l, d', Apply(x, l, op))
    ensures Follows(x, slots, flag, d, l, [op], d', Apply(x, l, op))
  {
    Prepend(x, l, op, [], Apply(x, l, op));
    assert [op] + [] == [op];
  }

  // ---- serving --------------------------------------------------------------------------------

  /** The first request yielded a batch of `k` frames, or it was a progress report, or nothing happened. */
  ghost predicate ServedOne(slots: seq<Slot>, flag: byte, d: Desk, d': Desk, k: nat)
    requires |slots| > 0
  {
    && d.rest == []
    && if k > 0 then
      && d.queue != [] && k <= d.queue[0].len
      && d' == d.(queue := Remaining(d.queue, k), rest := d'.rest, wire := d'.wire, bufIt := d.queue[0].s + k, bufItNext := d'.bufItNext)
      && d'.bufItNext == (if d'.rest == [] then d'.bufIt else d.bufItNext)
      && var all := RangeBytes(slots, d.subs, flag, d.queue[0].s, k); d'.wire + d'.rest == d.wire + all && |d'.rest| <= |all|
    else
      || d' == d.(bufIt := d'.bufIt)
      || (d.queue != [] && d.queue[0].len == 0 && d' == d.(queue := d.queue[1..], bufItNext := d.queue[0].s))
  }

  /** No requested sequence is lost or repeated, and what is left belongs to the sequences handed over. */
  lemma ServedOneMeans(slots: seq<Slot>, flag: byte, d: Desk, d': Desk, n: seq<nat>)
    requires |slots| > 0 && ServedOne(slots, flag, d, d', |n|) && d.queue != []
    requires n == Upto(d.queue[0].s, |n|) && (d' == d.(bufIt := d'.bufIt) || d.bufItNext <= d.queue[0].s)
    ensures Served(slots, d.subs, flag, d.wire, d.queue, n, d'.wire + d'.rest, d'.queue) && d.bufItNext <= d'.bufItNext
    ensures forall i :: 0 <= i < |n| && d'.rest != [] ==> d'.bufItNext <= n[i]
    ensures |d'.rest| <= |BytesOf(slots, d.subs, flag, n)|
    ensures d' == d.(bufIt := d'.bufIt) || Owed(d'.queue) < Owed(d.queue)
  {
    RangeIsBytesOf(slots, d.subs, flag, d.queue[0].s, |n|);
    if d'.queue == d.queue && |n| == 0 {
      assert n + Expand(d.queue) == Expand(d.queue) && d.wire + [] == d.wire;
    } else {
      ExpandServed(d.queue, |n|);
    }
  }

  /** What sending leaves alone: it starts nothing while no request is there. */
  predicate Onward(l: Link, l': Link)
  {
    && l'.up == l.up && l'.clientSubs == l.clientSubs && l'.connected == l.connected && l'.recv == l.recv
    && (l'.queue != [] || l'.relic.Relic? ==> l.queue != [] || l.relic.Relic?)
  }

  /** One turn of the loop is at most one step. */
  lemma ServeIsAStep(x: Sender, slots: seq<Slot>, cap: nat, readSeq: nat, flag: byte, d: Desk, l: Link, d': Desk, k: nat)
    returns (ops: seq<LinkOp>, l': Link)
    requires SameRing(x, slots, cap, readSeq) && |l.recv.arb.j| == 2 && Tracks(slots, flag, d, l) && d.rest == []
    requires ServedOne(slots, flag, d, d', k) && (d' == d.(bufIt := d'.bufIt) || (d.queue != [] && !BadRequest(x, l, d.queue[0])))
    ensures Follows(x, slots, flag, d, l, ops, d', l') && Onward(l, l')
  {
    if k > 0 {
      var op := BatchIsAStep(x, slots, cap, readSeq, flag, d, l, d', k);
      ops, l' := [op], Apply(x, l, op);
      FollowsStep(x, slots, flag, d, l, op, d');
    } else if d' == d.(bufIt := d'.bufIt) {
      ops, l' := [], l;
      NothingSent(slots, flag, d, l, d', l);
    } else {
      ops, l' := [Serve(0, 0)], Apply(x, l, Serve(0, 0));
      ProgressIsAStep(x, slots, cap, readSeq, flag, d, l);
      FollowsStep(x, slots, flag, d, l, Serve(0, 0), d');
    }
  }

  /** The sender refuses the request at the head of the queue. */
  predicate Refuses(cap: nat, readSeq: nat, d: Desk)
    requires d.queue != []
  {
    d.queue[0].s < d.bufItNext || d.queue[0].len > cap || d.queue[0].s + d.queue[0].len > readSeq
  }

  ghost predicate ServeTurn(slots: seq<Slot>, flag: byte, cap: nat, readSeq: nat, d: Desk, d': Desk)
    requires |slots| > 0
  {
    && (exists k: nat :: ServedOne(slots, flag, d, d', k))
    && (d' == d.(bufIt := d'.bufIt) || (d.queue != [] && !Refuses(cap, readSeq, d)))
  }

  /** Turn after turn of the loop. */
  ghost predicate Serves(slots: seq<Slot>, flag: byte, cap: nat, readSeq: nat, ds: seq<Desk>)
    requires |slots| > 0
    decreases |ds|
  {
    |ds| <= 1 ||
    (Serves(slots, flag, cap, readSeq, ds[..|ds| - 1]) && ServeTurn(slots, flag, cap, readSeq, ds[|ds| - 2], ds[|ds| - 1]))
  }

  lemma ServesMore(slots: seq<Slot>, flag: byte, cap: nat, readSeq: nat, ds: seq<Desk>, d': Desk, k: nat)
    requires |slots| > 0 && ds != [] && Serves(slots, flag, cap, readSeq, ds) && ServedOne(slots, flag, ds[|ds| - 1], d', k)
    requires d' == ds[|ds| - 1].(bufIt := d'.bufIt) || (ds[|ds| - 1].queue != [] && !Refuses(cap, readSeq, ds[|ds| - 1]))
    ensures Serves(slots, flag, cap, readSeq, ds + [d'])
  {
    assert (ds + [d'])[..|ds|] == ds;
  }

  /** What the turns come to: the sequences `n` are handed over, and what is left belongs to the last of them. */
  lemma {:induction false} ServesMeans(slots: seq<Slot>, flag: byte, cap: nat, readSeq: nat, ds: seq<Desk>) returns (n: seq<nat>)
    requires |slots| > 0 && ds != [] && ds[0].rest == [] && Serves(slots, flag, cap, readSeq, ds)
    ensures var d, d' := ds[0], ds[|ds| - 1];
      && Served(slots, d.subs, flag, d.wire, d.queue, n, d'.wire + d'.rest, d'.queue) && d'.subs == d.subs && d'.ready == d.ready
      && d.bufItNext <= d'.bufItNext
      && (d'.rest != [] ==> Unsent(slots, d.subs, flag, n, d'.bufItNext, |d'.rest|))
    decreases |ds|
  {
    if |ds| == 1 {
      n := [];
      assert ds[0].wire + [] == ds[0].wire;
      NothingServed(slots, ds[0].subs, flag, ds[0].wire, ds[0].queue);
    } else {
      var init := ds[..|ds| - 1];
      n := ServesMeans(slots, flag, cap, readSeq, init);
      n := OneMoreMeans(slots, flag, cap, readSeq, ds[0], n, ds[|ds| - 2], ds[|ds| - 1]);
    }
  }

  lemma OneMoreMeans(slots: seq<Slot>, flag: byte, cap: nat, readSeq: nat, d0: Desk, n: seq<nat>, d: Desk, d': Desk) returns (n': seq<nat>)
    requires |slots| > 0 && ServeTurn(slots, flag, cap, readSeq, d, d') && d.subs == d0.subs && d.ready == d0.ready && d0.bufItNext <= d.bufItNext
    requires Served(slots, d0.subs, flag, d0.wire, d0.queue, n, d.wire + d.rest, d.queue)
    ensures Served(slots, d0.subs, flag, d0.wire, d0.queue, n', d'.wire + d'.rest, d'.queue)
    ensures d'.subs == d0.subs && d'.ready == d0.ready && d0.bufItNext <= d'.bufItNext
    ensures d'.rest != [] ==> Unsent(slots, d0.subs, flag, n', d'.bufItNext, |d'.rest|)
  {
    var k: nat :| ServedOne(slots, flag, d, d', k);
    assert d.wire + [] == d.wire;
    if k == 0 && d' == d.(bufIt := d'.bufIt) {
      n' := n;
    } else {
      var m := Upto(d.queue[0].s, k);
      ServedOneMeans(slots, flag, d, d', m);
      ServedMore(slots, d0.subs, flag, d0.wire, d0.queue, n, d.wire, d.queue, m, d'.wire + d'.rest, d'.queue);
      n' := n + m;
      if d'.rest != [] { UnsentTail(slots, d0.subs, flag, n, m, d'.bufItNext, |d'.rest|); }
    }
  }

  /** Nothing of what was left over, or some of it, was sent. */
  predicate FlushedTo(d: Desk, d': Desk)
  {
    d' == d ||
    (&& d.rest != [] && d' == d.(rest := d'.rest, wire := d'.wire, bufItNext := d'.bufItNext)
     && d'.wire + d'.rest == d.wire + d.rest && |d'.rest| <= |d.rest|
     && d'.bufItNext == if d'.rest == [] then d.bufIt else d.bufItNext)
  }

  /** All that is left was left before. */
  predicate Waits(d: Desk, d': Desk, n: seq<nat>)
  {
    n == [] && |d'.rest| <= |d.rest| && d'.bufItNext == d.bufItNext
  }

  /** Sending what was left over, then serving once nothing is. */
  ghost predicate SendTurn(slots: seq<Slot>, flag: byte, cap: nat, readSeq: nat, d: Desk, ds: seq<Desk>, d': Desk)
    requires |slots| > 0
  {
    ds != [] && FlushedTo(d, ds[0]) && (|ds| > 1 ==> ds[0].rest == []) && ds[|ds| - 1] == d' && Serves(slots, flag, cap, readSeq, ds)
  }

  /** What that comes to. */
  lemma SendMeans(slots: seq<Slot>, flag: byte, cap: nat, readSeq: nat, d: Desk, ds: seq<Desk>, d': Desk) returns (n: seq<nat>)
    requires |slots| > 0 && SendTurn(slots, flag, cap, readSeq, d, ds, d') && (d.rest != [] ==> d.bufItNext <= d.bufIt)
    ensures Served(slots, d.subs, flag, d.wire + d.rest, d.queue, n, d'.wire + d'.rest, d'.queue)
    ensures d'.subs == d.subs && d'.ready == d.ready && d.bufItNext <= d'.bufItNext
    ensures d'.rest != [] ==> Unsent(slots, d.subs, flag, n, d'.bufItNext, |d'.rest|) || Waits(d, d', n)
  {
    if |ds| == 1 {
      n := [];
      NothingServed(slots, d.subs, flag, d.wire + d.rest, d.queue);
    } else {
      n := ServesMeans(slots, flag, cap, readSeq, ds);
      assert ds[0].wire + [] == ds[0].wire;
    }
  }

  /** A turn: reading `got`, then sending what was left over, then serving. At the end of the stream nothing is read. */
  ghost predicate Turn(slots: seq<Slot>, flag: byte, cap: nat, readSeq: nat, d: Desk, text: string, got: string, heard: Ear,
                       ds: seq<Desk>, d': Desk, text': string)
    requires |slots| > 0
  {
    && ((got == [] && heard == Ear(d.subs, d.ready, d.queue, true) && text' == text)
        || (heard, text') == C.Listen(Ear(d.subs, d.ready, d.queue, true), text + got, cap))
    && SendTurn(slots, flag, cap, readSeq, d.(subs := heard.subs, ready := heard.ready, queue := heard.queue), ds, d')
  }

  lemma {:induction false} ServesIsSteps(x: Sender, slots: seq<Slot>, cap: nat, readSeq: nat, flag: byte, l: Link, ds: seq<Desk>)
    returns (ops: seq<LinkOp>, l': Link)
    requires SameRing(x, slots, cap, readSeq) && |l.recv.arb.j| == 2 && ds != [] && Tracks(slots, flag, ds[0], l)
    requires Serves(slots, flag, cap, readSeq, ds)
    ensures Follows(x, slots, flag, ds[0], l, ops, ds[|ds| - 1], l') && Onward(l, l')
    decreases |ds|
  {
    ops, l' := [], l;
    if |ds| == 1 {
      Stays(x, slots, flag, ds[0], l);
    } else {
      var init := ds[..|ds| - 1];
      ops, l' := ServesIsSteps(x, slots, cap, readSeq, flag, l, init);
      assert init[0] == ds[0] && init[|init| - 1] == ds[|ds| - 2];
      ops, l' := OneMoreTurn(x, slots, cap, readSeq, flag, ds[0], l, ops, ds[|ds| - 2], l', ds[|ds| - 1]);
    }
  }

  lemma OneMoreTurn(x: Sender, slots: seq<Slot>, cap: nat, readSeq: nat, flag: byte, d0: Desk, l: Link, ops: seq<LinkOp>, d: Desk, l1: Link, d': Desk)
    returns (ops': seq<LinkOp>, l': Link)
    requires SameRing(x, slots, cap, readSeq) && |l.recv.arb.j| == 2 && ServeTurn(slots, flag, cap, readSeq, d, d')
    requires Follows(x, slots, flag, d0, l, ops, d, l1) && Onward(l, l1)
    ensures Follows(x, slots, flag, d0, l, ops', d', l') && Onward(l, l')
  {
    var k: nat :| ServedOne(slots, flag, d, d', k);
    var more;
    more, l' := ServeIsAStep(x, slots, cap, readSeq, flag, d, l1, d', k);
    ops' := ops + more;
    FollowsMore(x, slots, flag, d0, l, ops, d, l1, more, d', l');
  }

  lemma FlushIsSteps(x: Sender, slots: seq<Slot>, cap: nat, readSeq: nat, flag: byte, d: Desk, l: Link, d': Desk) returns (ops: seq<LinkOp>, l': Link)
    requires SameRing(x, slots, cap, readSeq) && |l.recv.arb.j| == 2 && Tracks(slots, flag, d, l) && FlushedTo(d, d')
    ensures Follows(x, slots, flag, d, l, ops, d', l') && Onward(l, l')
  {
    ops, l' := [], l;
    if d' == d {
      Stays(x, slots, flag, d, l);
    } else {
      var op := FlushIsAStep(x, slots, cap, readSeq, flag, d, l, d');
      ops, l' := [op], Apply(x, l, op);
      FollowsStep(x, slots, flag, d, l, op, d');
    }
  }

  // ---- reading commands -----------------------------------------------------------------------

  lemma PastHead<T>(head: seq<T>, tail: seq<T>, s: seq<T>)
    requires s <= head + tail && |head| <= |s|
    ensures s == head + s[|head|..] && s[|head|..] <= tail
  {
    assert (head + tail)[..|s|] == s;
    assert (head + tail)[..|s|][..|head|] == head;
  }

  lemma CutAfterHead<T>(s: seq<T>, m: nat)
    requires m < |s|
    ensures s[..m + 1][0] == s[0] && s[..m + 1][1..] == s[1..][..m] && s[m + 1..] == s[1..][m..]
  {
  }

  lemma PartOfCommand(c: Command, text: string)
    requires text <= C.Encode(c) && |text| < |C.Encode(c)|
    ensures C.Find(text) == |text|
  {
    C.TokenHasNoTab(c);
    assert text == C.Token(c)[..|text|];
    C.NoTab(text);
  }

  /** Text that is part of what the receiver writes is understood as far as its commands are complete. */
  lemma {:induction false} HearsPrefix(e: Ear, cs: seq<Command>, text: string, cap: nat) returns (m: nat)
    requires e.ok && (forall i :: 0 <= i < |cs| ==> C.Sendable(cs[i])) && text <= C.EncodeAll(cs)
    ensures m <= |cs| && C.Listen(e, text, cap).0 == C.Obey(e, cs[..m], cap) && C.Listen(e, text, cap).0.ok
    ensures C.Listen(e, text, cap).1 <= C.EncodeAll(cs[m..])
    decreases |cs|
  {
    m := 0;
    if cs == [] {
      assert text == [];
    } else {
      var head, tail := C.Encode(cs[0]), C.EncodeAll(cs[1..]);
      if |head| <= |text| {
        var rest := text[|head|..];
        PastHead(head, tail, text);
        C.HearsOne(e, cs[0], rest, cap);
        m := HearsPrefix(Obey1(e, cs[0], cap), cs[1..], rest, cap);
        CutAfterHead(cs, m);
        m := m + 1;
      } else {
        assert text <= head by { assert (head + tail)[..|text|] == text; }
        PartOfCommand(cs[0], text);
        assert cs[..0] == [] && cs[0..] == cs;
      }
    }
  }

  /** Reading `m` commands is `m` steps of the protocol. */
  lemma {:induction false} ReadsAreSteps(x: Sender, l: Link, m: nat) returns (ops: seq<LinkOp>, l': Link)
    requires |l.recv.arb.j| == 2 && |x.slots| > 0 && l.alive && m <= |l.up|
    ensures Performs(x, l, ops, l')
    ensures var e := C.Obey(Ear(l.clientSubs, l.ready, l.queue, true), l.up[..m], x.cap);
            l' == l.(up := l.up[m..], clientSubs := e.subs, ready := e.ready, queue := e.queue)
    ensures SubsInv(l) ==> SubsInv(l')
    decreases m
  {
    if m == 0 {
      ops, l' := [], l;
      assert l.up[0..] == l.up;
    } else {
      var l1 := Command1(x, l);
      ops, l' := ReadsAreSteps(x, l1, m - 1);
      assert l.up[..m][0] == l.up[0] && l.up[..m][1..] == l1.up[..m - 1] && l1.up[m - 1..] == l.up[m..];
      Prepend(x, l, ReadCommand, ops, l');
      ops := [ReadCommand] + ops;
    }
  }

  /** Where all subscriptions have arrived, what is announced again is no news. */
  lemma {:induction false} ObeysNoNews(e: Ear, cs: seq<Command>, m: nat, cap: nat)
    requires SubsOwed(e.subs, cs, e.subs) && m <= |cs|
    ensures C.Obey(e, cs[..m], cap).subs == e.subs
    decreases |cs|
  {
    if m > 0 {
      assert cs[..m][0] == cs[0] && cs[..m][1..] == cs[1..][..m - 1];
      assert cs[0].Subscribe? ==> e.subs + {cs[0].tag} == e.subs;
      ObeysNoNews(Obey1(e, cs[0], cap), cs[1..], m - 1, cap);
    }
  }

  lemma ReadsTrack(slots: seq<Slot>, flag: byte, d: Desk, l: Link, d': Desk, l': Link)
    requires |slots| > 0 && Tracks(slots, flag, d, l)
    requires l' == l.(up := l'.up, clientSubs := d'.subs, ready := d'.ready, queue := d'.queue)
    requires d' == d.(subs := d'.subs, ready := d'.ready, queue := d'.queue) && (l.relic.Relic? ==> d'.subs == d.subs)
    ensures Advances(slots, flag, d, l, d', l')
  {
    assert Begun(slots, flag, d', l') == Begun(slots, flag, d, l);
    NothingSent(slots, flag, d, l, d', l');
  }

  /** `text` is what the session has of the commands under way. */
  ghost predicate Hearing(l: Link, text: string)
  {
    (forall i :: 0 <= i < |l.up| ==> C.Sendable(l.up[i])) && text <= C.EncodeAll(l.up) && SubsInv(l)
  }

  /** Hearing what came in is steps of the protocol. */
  lemma HearingIsSteps(x: Sender, slots: seq<Slot>, cap: nat, readSeq: nat, flag: byte, d: Desk, l: Link, d': Desk, text: string, text': string)
    returns (ops: seq<LinkOp>, l': Link)
    requires SameRing(x, slots, cap, readSeq) && |l.recv.arb.j| == 2 && Tracks(slots, flag, d, l) && Hearing(l, text)
    requires d' == d.(subs := d'.subs, ready := d'.ready, queue := d'.queue)
    requires (Ear(d'.subs, d'.ready, d'.queue, true), text') == C.Listen(Ear(d.subs, d.ready, d.queue, true), text, cap)
    ensures Follows(x, slots, flag, d, l, ops, d', l') && Hearing(l', text')
  {
    var e := Ear(d.subs, d.ready, d.queue, true);
    var m := HearsPrefix(e, l.up, text, cap);
    ops, l' := ReadsAreSteps(x, l, m);
    if l.relic.Relic? {
      if l.up == [] { assert l.up[..m] == []; } else { ObeysNoNews(e, l.up, m, cap); }
    }
    ReadsTrack(slots, flag, d, l, d', l');
  }

  lemma ReadingIsSteps(x: Sender, slots: seq<Slot>, cap: nat, readSeq: nat, flag: byte, d: Desk, l: Link,
                       text: string, offered: string, got: string, heard: Ear, text': string)
    returns (ops: seq<LinkOp>, l': Link)
    requires SameRing(x, slots, cap, readSeq) && |l.recv.arb.j| == 2 && Tracks(slots, flag, d, l) && Hearing(l, text + offered) && got <= offered
    requires || (got == [] && heard == Ear(d.subs, d.ready, d.queue, true) && text' == text)
             || (heard, text') == C.Listen(Ear(d.subs, d.ready, d.queue, true), text + got, cap)
    ensures Follows(x, slots, flag, d, l, ops, d.(subs := heard.subs, ready := heard.ready, queue := heard.queue), l') && Hearing(l', text')
  {
    assert text + got <= C.EncodeAll(l.up) && text <= C.EncodeAll(l.up);
    if (heard, text') == C.Listen(Ear(d.subs, d.ready, d.queue, true), text + got, cap) {
      var m := HearsPrefix(Ear(d.subs, d.ready, d.queue, true), l.up, text + got, cap);
      var d' := d.(subs := heard.subs, ready := heard.ready, queue := heard.queue);
      ops, l' := HearingIsSteps(x, slots, cap, readSeq, flag, d, l, d', text + got, text');
    } else {
      ops, l' := [], l;
      Stays(x, slots, flag, d, l);
    }
  }

  /**
   * If the object is at the protocol's link `l`, and what it reads is part of what the receiver wrote, its turn is
   * the protocol's steps `ops`: it ends at the link they lead to, and the bytes of the frames it completed meanwhile
   * encode the items that went down the connection.
   */
  lemma TurnIsSteps(x: Sender, slots: seq<Slot>, cap: nat, readSeq: nat, flag: byte, d: Desk, l: Link,
                    text: string, offered: string, got: string, heard: Ear, ds: seq<Desk>, d': Desk, text': string)
    returns (ops: seq<LinkOp>, l': Link)
    requires SameRing(x, slots, cap, readSeq) && |l.recv.arb.j| == 2 && Tracks(slots, flag, d, l) && Hearing(l, text + offered) && got <= offered
    requires Turn(slots, flag, cap, readSeq, d, text, got, heard, ds, d', text')
    ensures Follows(x, slots, flag, d, l, ops, d', l') && Hearing(l', text')
  {
    var d0 := d.(subs := heard.subs, ready := heard.ready, queue := heard.queue);
    var ops0, l0 := ReadingIsSteps(x, slots, cap, readSeq, flag, d, l, text, offered, got, heard, text');
    var ops1, l1 := FlushIsSteps(x, slots, cap, readSeq, flag, d0, l0, ds[0]);
    var ops2;
    ops2, l' := ServesIsSteps(x, slots, cap, readSeq, flag, l1, ds);
    FollowsMore(x, slots, flag, d, l, ops0, d0, l0, ops1, ds[0], l1);
    FollowsMore(x, slots, flag, d, l, ops0 + ops1, ds[0], l1, ops2, d', l');
    ops := ops0 + ops1 + ops2;
  }

  lemma {:induction false} ReportIsListed(up: seq<Command>, i: nat)
    requires i < |up| && up[i].Report?
    ensures Request(up[i].s, up[i].len) in Reports(up)
  {
    if i > 0 { ReportIsListed(up[1..], i - 1); }
  }

  /** In every reachable state a live link's commands are of the kind the object is proved for. */
  lemma InvariantHears(x: Sender, l: Link, text: string)
    requires Bounds(x) && LinkInv(x, l) && l.alive && text <= C.EncodeAll(l.up)
    ensures Hearing(l, text)
  {
    forall i | 0 <= i < |l.up| ensures C.Sendable(l.up[i]) {
      if l.up[i].Report? {
        ReportIsListed(l.up, i);
        var q := l.queue + Reports(l.up);
        var k: nat :| k < |Reports(l.up)| && Reports(l.up)[k] == Request(l.up[i].s, l.up[i].len);
        assert q[|l.queue| + k] == Request(l.up[i].s, l.up[i].len);
        ChainMember(Progress(l), q, Frontier(l), Hi(l.recv), |l.queue| + k);
      }
    }
  }
}
