/**
 * The bytes on the backup connection: an 8-byte start sequence, then frames of a 3-byte header
 * (flag, payload length) and a payload (hmbdc/tips/rmcast/Messages.hpp, lines 21-88).
 */
module Frames {
  import opened Common
  import opened Messages
  import opened Receiver

  const HEADER := 3
  /** A message head: six bytes of sequence, then the tag. */
  const HEAD := 8
  const START := 8

  datatype Frame = Frame(flag: byte, payload: seq<byte>)

  function Lo(n: nat): byte { n % 256 }

  function Hi(n: nat): byte
    requires n < 65536
  {
    n / 256
  }

  predicate Fits(f: Frame) { |f.payload| < 65536 }

  function Encode(f: Frame): (r: seq<byte>)
    requires Fits(f)
    ensures |r| == HEADER + |f.payload|
  {
    [f.flag, Lo(|f.payload|), Hi(|f.payload|)] + f.payload
  }

  function EncodeAll(fs: seq<Frame>): seq<byte>
    requires forall i :: 0 <= i < |fs| ==> Fits(fs[i])
  {
    if fs == [] then [] else Encode(fs[0]) + EncodeAll(fs[1..])
  }

  /** Size of the frame at the head of `bytes`, when its header is there. */
  function WireSize(bytes: seq<byte>): (n: nat)
    requires |bytes| >= HEADER
    ensures n >= HEADER
  {
    HEADER + Le16(bytes[1], bytes[2])
  }

  predicate Complete(bytes: seq<byte>) { |bytes| >= HEADER && |bytes| >= WireSize(bytes) }

  function Head(bytes: seq<byte>): (f: Frame)
    requires Complete(bytes)
    ensures Fits(f) && HEADER + |f.payload| == WireSize(bytes)
  {
    Frame(bytes[0], bytes[HEADER..WireSize(bytes)])
  }

  /** The complete frames in `bytes`, and the bytes kept for the next read. */
  datatype Parsed = Parsed(frames: seq<Frame>, rest: seq<byte>)

  function Parse(bytes: seq<byte>): (r: Parsed)
    ensures !Complete(r.rest)
    ensures forall i :: 0 <= i < |r.frames| ==> Fits(r.frames[i])
    decreases |bytes|
  {
    if Complete(bytes) then
      var tail := Parse(bytes[WireSize(bytes)..]);
      Parsed([Head(bytes)] + tail.frames, tail.rest)
    else Parsed([], bytes)
  }

  // ---- laws of the parser ---------------------------------------------------------------------

  lemma HeadOfEncoding(f: Frame, more: seq<byte>)
    requires Fits(f)
    ensures Complete(Encode(f) + more) && WireSize(Encode(f) + more) == HEADER + |f.payload|
    ensures Head(Encode(f) + more) == f && (Encode(f) + more)[HEADER + |f.payload|..] == more
  {
    var b := Encode(f) + more;
    assert b[1] == Lo(|f.payload|) && b[2] == Hi(|f.payload|);
    assert b[HEADER..HEADER + |f.payload|] == f.payload;
  }

  lemma EncodeOfHead(bytes: seq<byte>)
    requires Complete(bytes)
    ensures Encode(Head(bytes)) + bytes[WireSize(bytes)..] == bytes
  {
    var n := Le16(bytes[1], bytes[2]);
    assert n % 256 == bytes[1] && n / 256 == bytes[2];
  }

  lemma EncodeAllHead(f: Frame, fs: seq<Frame>)
    requires Fits(f) && forall i :: 0 <= i < |fs| ==> Fits(fs[i])
    ensures EncodeAll([f] + fs) == Encode(f) + EncodeAll(fs)
  {
    assert ([f] + fs)[1..] == fs;
  }

  /** Nothing is lost: the frames found and the bytes kept are the bytes read. */
  lemma {:induction false} ParseConserves(bytes: seq<byte>)
    ensures EncodeAll(Parse(bytes).frames) + Parse(bytes).rest == bytes
    decreases |bytes|
  {
    if Complete(bytes) {
      var tail := bytes[WireSize(bytes)..];
      ParseConserves(tail);
      EncodeOfHead(bytes);
      EncodeAllHead(Head(bytes), Parse(tail).frames);
      Regroup(Encode(Head(bytes)), EncodeAll(Parse(tail).frames), Parse(tail).rest);
    }
  }

  /** What was encoded is parsed back, whatever incomplete bytes follow. */
  lemma {:induction false} ParseOfEncoding(fs: seq<Frame>, more: seq<byte>)
    requires forall i :: 0 <= i < |fs| ==> Fits(fs[i])
    requires !Complete(more)
    ensures Parse(EncodeAll(fs) + more) == Parsed(fs, more)
    decreases |fs|
  {
    if fs == [] {
      assert EncodeAll(fs) + more == more;
    } else {
      var tail := EncodeAll(fs[1..]) + more;
      assert EncodeAll(fs) + more == Encode(fs[0]) + tail;
      HeadOfEncoding(fs[0], tail);
      ParseOfEncoding(fs[1..], more);
      assert [fs[0]] + fs[1..] == fs;
    }
  }

  lemma CompleteStays(a: seq<byte>, b: seq<byte>)
    requires Complete(a)
    ensures Complete(a + b) && WireSize(a + b) == WireSize(a) && Head(a + b) == Head(a)
    ensures (a + b)[WireSize(a)..] == a[WireSize(a)..] + b
  {
    assert (a + b)[HEADER..WireSize(a)] == a[HEADER..WireSize(a)];
  }

  /** Reading `a` and later `b` finds the frames that reading both at once finds. */
  lemma {:induction false} ParseInTwo(a: seq<byte>, b: seq<byte>)
    ensures Parse(a + b).frames == Parse(a).frames + Parse(Parse(a).rest + b).frames
    ensures Parse(a + b).rest == Parse(Parse(a).rest + b).rest
    decreases |a|
  {
    if Complete(a) {
      CompleteStays(a, b);
      ParseInTwo(a[WireSize(a)..], b);
    }
  }

  /** Frames found as `chunks` come in one after another, starting with `kept` in the buffer. */
  function Feed(kept: seq<byte>, chunks: seq<seq<byte>>): Parsed
    decreases |chunks|
  {
    var p := Parse(kept);
    if chunks == [] then p
    else
      var q := Feed(p.rest + chunks[0], chunks[1..]);
      Parsed(p.frames + q.frames, q.rest)
  }

  function Joined(chunks: seq<seq<byte>>): seq<byte>
  {
    if chunks == [] then [] else chunks[0] + Joined(chunks[1..])
  }

  /** However the stream is cut, the same frames come out. */
  lemma {:induction false} ChunkingDoesNotMatter(kept: seq<byte>, chunks: seq<seq<byte>>)
    ensures Feed(kept, chunks) == Parse(kept + Joined(chunks))
    decreases |chunks|
  {
    if chunks == [] {
      assert kept + Joined(chunks) == kept;
    } else {
      var p, more := Parse(kept), Joined(chunks[1..]);
      ChunkingDoesNotMatter(p.rest + chunks[0], chunks[1..]);
      ParseInTwo(kept, chunks[0] + more);
      assert p.rest + (chunks[0] + more) == p.rest + chunks[0] + more;
    }
  }

  // ---- from frames to the receiver's items ----------------------------------------------------

  /** A frame is empty, a flush, or carries a message with its head. */
  predicate Proper(f: Frame) { Fits(f) && (f.payload == [] || |f.payload| >= HEAD) }

  function ItemOf(f: Frame): TcpItem
  {
    if |f.payload| < HEAD then Flush else Item(Msg(Le16(f.payload[6], f.payload[7]), f.payload[HEAD..]))
  }

  function ItemsOf(fs: seq<Frame>): seq<TcpItem>
  {
    if fs == [] then [] else [ItemOf(fs[0])] + ItemsOf(fs[1..])
  }

  /** Little-endian words. */
  function Le(b: seq<byte>): (n: nat)
  {
    if b == [] then 0 else b[0] + 256 * Le(b[1..])
  }

  function ToLe(n: nat, k: nat): (b: seq<byte>)
    ensures |b| == k
  {
    if k == 0 then [] else [n % 256] + ToLe(n / 256, k - 1)
  }

  function Pow256(k: nat): nat { if k == 0 then 1 else 256 * Pow256(k - 1) }

  lemma {:induction false} LeOfToLe(n: nat, k: nat)
    requires n < Pow256(k)
    ensures Le(ToLe(n, k)) == n
  {
    if k > 0 { LeOfToLe(n / 256, k - 1); }
  }

  lemma StartFits()
    ensures Pow256(START) == SEQ_MAX + 1
  {
    assert Pow256(4) == 0x1_0000_0000;
    assert Pow256(6) == 256 * Pow256(5) && Pow256(5) == 256 * Pow256(4);
  }

  lemma StartSeqSurvives(n: nat)
    requires n <= SEQ_MAX
    ensures Le(ToLe(n, START)) == n
  {
    StartFits();
    LeOfToLe(n, START);
  }
}
