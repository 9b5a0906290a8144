/**
 * Memory attachments through a ring of fixed-size slots: cut up by hmbdc/app/Context.hpp (lines 324-353), put
 * together again by hmbdc/app/Client.hpp (lines 23-59) and hmbdc/app/MessageDispacher.hpp (lines 62-126).
 */
module Attachments {
  import opened Common
  import opened Messages

  /** System tags of a train's head and of its segments. */
  const HEAD_TAG: Tag := 7
  const SEGMENT_TAG: Tag := 8

  /** A ring slot. A head announces the attachment's length; a segment holds some of its bytes. */
  datatype Slot = Plain(tag: Tag, body: seq<byte>) | Head(under: Tag, msg: seq<byte>, len: nat) | Segment(bytes: seq<byte>)

  function TagOf(x: Slot): Tag
  {
    match x case Plain(tag, _) => tag case Head(_, _, _) => HEAD_TAG case Segment(_) => SEGMENT_TAG
  }

  /** A message type a consumer lists: its tags, and whether it carries an attachment. */
  datatype Type = Type(tags: set<Tag>, att: bool)

  /** A call of the handler of the k-th listed type. */
  datatype Call = CallPlain(k: nat, tag: Tag, body: seq<byte>) | CallAtt(k: nat, tag: Tag, msg: seq<byte>, bytes: seq<byte>)

  /** The reassembler: idle, or `acc` of `len` bytes gathered. */
  datatype Proc = Idle | Busy(under: Tag, msg: seq<byte>, len: nat, acc: seq<byte>)

  // ---- cutting up -----------------------------------------------------------------------------

  function Chunks(bytes: seq<byte>, segSize: nat): (r: seq<seq<byte>>)
    requires segSize > 0
    decreases |bytes|
  {
    if bytes == [] then []
    else if |bytes| <= segSize then [bytes]
    else [bytes[..segSize]] + Chunks(bytes[segSize..], segSize)
  }

  function Segments(cs: seq<seq<byte>>): (r: seq<Slot>)
    ensures |r| == |cs|
  {
    if cs == [] then [] else [Segment(cs[0])] + Segments(cs[1..])
  }

  /** The slots of one send. */
  function Train(under: Tag, msg: seq<byte>, bytes: seq<byte>, segSize: nat): seq<Slot>
    requires segSize > 0
  {
    [Head(under, msg, |bytes|)] + Segments(Chunks(bytes, segSize))
  }

  lemma Quotient(len: nat, d: nat, q: nat)
    requires d > 0 && q * d <= len < q * d + d
    ensures len / d == q
  {
    assert len == (len / d) * d + len % d;
    SameMultiple(len / d, q, d, 0);
  }

  /** The number of segments the sender claims is the number there are. */
  lemma {:induction false} ChunkCount(bytes: seq<byte>, segSize: nat)
    requires segSize > 0
    ensures |Chunks(bytes, segSize)| == (|bytes| + segSize - 1) / segSize
    decreases |bytes|
  {
    if bytes == [] {
      Quotient(segSize - 1, segSize, 0);
    } else if |bytes| <= segSize {
      Quotient(|bytes| + segSize - 1, segSize, 1);
    } else {
      var m := |bytes| - segSize;
      ChunkCount(bytes[segSize..], segSize);
      var q := (m + segSize - 1) / segSize;
      assert m + segSize - 1 == q * segSize + (m + segSize - 1) % segSize;
      assert (q + 1) * segSize == q * segSize + segSize;
      Quotient(|bytes| + segSize - 1, segSize, q + 1);
    }
  }

  // ---- putting together -----------------------------------------------------------------------

  /** `accumulate`: copies what is still missing; a complete attachment takes nothing more. */
  function Accumulate(p: Proc, bytes: seq<byte>): (r: (Proc, bool))
    requires p.Busy?
    ensures r.0.Busy?
  {
    if |p.acc| < p.len then
      var acc := p.acc + bytes[..Min(|bytes|, p.len - |p.acc|)];
      (p.(acc := acc), |acc| == p.len)
    else (p, true)
  }

  /** One listed type looks at a slot; `done` ends the search. */
  datatype Glance = Glance(p: Proc, call: Option<Call>, done: bool)

  function LookAt(p: Proc, k: nat, t: Type, x: Slot): Glance
  {
    if TagOf(x) in t.tags then Glance(p, if x.Plain? then Some(CallPlain(k, x.tag, x.body)) else None, true)
    else if !t.att then Glance(p, None, false)
    else if p.Busy? then
      if !x.Segment? then Glance(p, None, false)
      else
        var (p', full) := Accumulate(p, x.bytes);
        if !full then Glance(p', None, true)
        else if p.under in t.tags then Glance(Idle, Some(CallAtt(k, p.under, p.msg, p'.acc)), true)
        else Glance(p', None, false)
    else if x.Head? && x.under in t.tags then
      if x.len == 0 then Glance(Idle, Some(CallAtt(k, x.under, x.msg, [])), true)
      else Glance(Busy(x.under, x.msg, x.len, []), None, true)
    else Glance(p, None, false)
  }

  /** The listed types look at the slot in turn. */
  function Dispatch(p: Proc, types: seq<Type>, k: nat, x: Slot): (r: (Proc, seq<Call>))
    requires k <= |types|
    decreases |types| - k
  {
    if k == |types| then (p, [])
    else
      var l := LookAt(p, k, types[k], x);
      if l.done then (l.p, if l.call.Some? then [l.call.value] else []) else Dispatch(l.p, types, k + 1, x)
  }

  function Feed(p: Proc, types: seq<Type>, xs: seq<Slot>): (r: (Proc, seq<Call>))
    decreases |xs|
  {
    if xs == [] then (p, [])
    else
      var a := Dispatch(p, types, 0, xs[0]);
      var b := Feed(a.0, types, xs[1..]);
      (b.0, a.1 + b.1)
  }

  // ---- the round trip -------------------------------------------------------------------------

  /** No listed type uses the system tags. */
  predicate UserTypes(types: seq<Type>)
  {
    forall k :: 0 <= k < |types| ==> HEAD_TAG !in types[k].tags && SEGMENT_TAG !in types[k].tags
  }

  /** The first listed type, from the k-th on, that takes an attachment with this tag. */
  function Taker(types: seq<Type>, k: nat, tag: Tag): (r: nat)
    requires k <= |types|
    ensures k <= r <= |types|
    ensures forall i :: k <= i < r ==> !(types[i].att && tag in types[i].tags)
    ensures r < |types| ==> types[r].att && tag in types[r].tags
    decreases |types| - k
  {
    if k == |types| || (types[k].att && tag in types[k].tags) then k else Taker(types, k + 1, tag)
  }

  lemma {:induction false} HeadIsTaken(types: seq<Type>, k: nat, x: Slot)
    requires k <= |types| && UserTypes(types) && x.Head?
    ensures var t := Taker(types, k, x.under);
            Dispatch(Idle, types, k, x) ==
              if t == |types| then (Idle, [])
              else if x.len == 0 then (Idle, [CallAtt(t, x.under, x.msg, [])])
              else (Busy(x.under, x.msg, x.len, []), [])
    decreases |types| - k
  {
    if k < |types| && Taker(types, k, x.under) != k { HeadIsTaken(types, k + 1, x); }
  }

  /** Nobody takes a segment while the reassembler is idle. */
  lemma {:induction false} IdleIgnoresSegments(types: seq<Type>, k: nat, bytes: seq<byte>)
    requires k <= |types| && UserTypes(types)
    ensures Dispatch(Idle, types, k, Segment(bytes)) == (Idle, [])
    decreases |types| - k
  {
    if k < |types| { IdleIgnoresSegments(types, k + 1, bytes); }
  }

  /** A segment is copied once, by the first type that takes attachments, whichever type the train is for. */
  lemma {:induction false} SegmentIsCopied(types: seq<Type>, k: nat, p: Proc, bytes: seq<byte>)
    requires k <= |types| && UserTypes(types) && p.Busy? && |p.acc| + |bytes| <= p.len && |p.acc| < p.len
    requires Taker(types, k, p.under) < |types|
    ensures var acc := p.acc + bytes;
            Dispatch(p, types, k, Segment(bytes)) ==
              if |acc| < p.len then (p.(acc := acc), [])
              else (Idle, [CallAtt(Taker(types, k, p.under), p.under, p.msg, acc)])
    decreases |types| - k
  {
    if !types[k].att {
      SegmentIsCopied(types, k + 1, p, bytes);
    } else {
      assert bytes[..|bytes|] == bytes;
      if |p.acc + bytes| == p.len && Taker(types, k, p.under) != k {
        FullIsDelivered(types, k + 1, p.(acc := p.acc + bytes), bytes);
      }
    }
  }

  lemma {:induction false} FullIsDelivered(types: seq<Type>, k: nat, p: Proc, bytes: seq<byte>)
    requires k <= |types| && UserTypes(types) && p.Busy? && |p.acc| == p.len && Taker(types, k, p.under) < |types|
    ensures Dispatch(p, types, k, Segment(bytes)) == (Idle, [CallAtt(Taker(types, k, p.under), p.under, p.msg, p.acc)])
    decreases |types| - k
  {
    if Taker(types, k, p.under) != k { FullIsDelivered(types, k + 1, p, bytes); }
  }

  lemma {:induction false} IdleIgnoresAll(types: seq<Type>, cs: seq<seq<byte>>)
    requires UserTypes(types)
    ensures Feed(Idle, types, Segments(cs)).0 == Idle && Feed(Idle, types, Segments(cs)).1 == []
    decreases |cs|
  {
    if cs != [] {
      IdleIgnoresSegments(types, 0, cs[0]);
      assert Segments(cs)[1..] == Segments(cs[1..]);
      IdleIgnoresAll(types, cs[1..]);
    }
  }

  /** Feeding the chunks of the missing bytes completes the attachment with exactly these bytes. */
  lemma {:induction false} ChunksComplete(types: seq<Type>, p: Proc, bytes: seq<byte>, segSize: nat)
    requires segSize > 0 && UserTypes(types) && p.Busy? && bytes != [] && |p.acc| + |bytes| == p.len
    requires Taker(types, 0, p.under) < |types|
    ensures var r := Feed(p, types, Segments(Chunks(bytes, segSize)));
            r.0 == Idle && r.1 == [CallAtt(Taker(types, 0, p.under), p.under, p.msg, p.acc + bytes)]
    decreases |bytes|
  {
    var cs := Chunks(bytes, segSize);
    var xs := Segments(cs);
    assert xs[0] == Segment(cs[0]) && xs[1..] == Segments(cs[1..]);
    SegmentIsCopied(types, 0, p, cs[0]);
    if |bytes| > segSize {
      assert cs[1..] == Chunks(bytes[segSize..], segSize);
      ChunksComplete(types, p.(acc := p.acc + cs[0]), bytes[segSize..], segSize);
      assert p.acc + cs[0] + bytes[segSize..] == p.acc + bytes;
    } else {
      assert xs[1..] == [];
    }
  }

  /** A train calls the matching handler once, with the very bytes that were sent, and leaves the reassembler idle. */
  lemma TrainRoundTrip(types: seq<Type>, under: Tag, msg: seq<byte>, bytes: seq<byte>, segSize: nat)
    requires segSize > 0 && UserTypes(types)
    ensures var t, r := Taker(types, 0, under), Feed(Idle, types, Train(under, msg, bytes, segSize));
            r.0 == Idle && r.1 == if t == |types| then [] else [CallAtt(t, under, msg, bytes)]
  {
    var xs, cs := Train(under, msg, bytes, segSize), Chunks(bytes, segSize);
    HeadIsTaken(types, 0, xs[0]);
    assert xs[1..] == Segments(cs);
    if Taker(types, 0, under) == |types| || bytes == [] {
      IdleIgnoresAll(types, cs);
    } else {
      ChunksComplete(types, Busy(under, msg, |bytes|, []), bytes, segSize);
      assert [] + bytes == bytes;
    }
  }

  /** What producers put: plain messages and whole trains, each contiguous. */
  datatype Sent = SentPlain(tag: Tag, body: seq<byte>) | SentTrain(under: Tag, msg: seq<byte>, bytes: seq<byte>)

  function SlotsOf(ss: seq<Sent>, segSize: nat): seq<Slot>
    requires segSize > 0
  {
    if ss == [] then []
    else
      (match ss[0] case SentPlain(tag, body) => [Plain(tag, body)] case SentTrain(u, m, b) => Train(u, m, b, segSize))
      + SlotsOf(ss[1..], segSize)
  }

  function FirstListing(types: seq<Type>, k: nat, tag: Tag): (r: nat)
    requires k <= |types|
    ensures k <= r <= |types|
    ensures (forall i :: k <= i < r ==> tag !in types[i].tags) && (r < |types| ==> tag in types[r].tags)
    decreases |types| - k
  {
    if k == |types| || tag in types[k].tags then k else FirstListing(types, k + 1, tag)
  }

  /** What a consumer's handlers should see of it. */
  function Expected(types: seq<Type>, ss: seq<Sent>): seq<Call>
  {
    if ss == [] then []
    else
      (match ss[0]
       case SentPlain(tag, body) =>
         var t := FirstListing(types, 0, tag);
         if t == |types| then [] else [CallPlain(t, tag, body)]
       case SentTrain(u, m, b) =>
         var t := Taker(types, 0, u);
         if t == |types| then [] else [CallAtt(t, u, m, b)])
      + Expected(types, ss[1..])
  }

  predicate UserMessages(ss: seq<Sent>)
  {
    forall i :: 0 <= i < |ss| && ss[i].SentPlain? ==> ss[i].tag != HEAD_TAG && ss[i].tag != SEGMENT_TAG
  }

  lemma {:induction false} FeedConcat(p: Proc, types: seq<Type>, a: seq<Slot>, b: seq<Slot>)
    ensures Feed(p, types, a + b).0 == Feed(Feed(p, types, a).0, types, b).0
    ensures Feed(p, types, a + b).1 == Feed(p, types, a).1 + Feed(Feed(p, types, a).0, types, b).1
    decreases |a|
  {
    if a == [] {
      assert a + b == b;
    } else {
      assert (a + b)[1..] == a[1..] + b;
      FeedConcat(Dispatch(p, types, 0, a[0]).0, types, a[1..], b);
    }
  }

  lemma {:induction false} PlainIsTaken(types: seq<Type>, k: nat, tag: Tag, body: seq<byte>)
    requires k <= |types|
    ensures var t := FirstListing(types, k, tag);
            Dispatch(Idle, types, k, Plain(tag, body)) == (Idle, if t == |types| then [] else [CallPlain(t, tag, body)])
    decreases |types| - k
  {
    if k < |types| && FirstListing(types, k, tag) != k { PlainIsTaken(types, k + 1, tag, body); }
  }

  /** Whatever else shares the ring, every consumer sees every message and attachment it lists, once, in order, whole. */
  lemma {:induction false} RingRoundTrip(types: seq<Type>, ss: seq<Sent>, segSize: nat)
    requires segSize > 0 && UserTypes(types) && UserMessages(ss)
    ensures Feed(Idle, types, SlotsOf(ss, segSize)).0 == Idle
    ensures Feed(Idle, types, SlotsOf(ss, segSize)).1 == Expected(types, ss)
    decreases |ss|
  {
    if ss != [] {
      RingRoundTrip(types, ss[1..], segSize);
      match ss[0]
      case SentPlain(tag, body) =>
        PlainIsTaken(types, 0, tag, body);
        FeedConcat(Idle, types, [Plain(tag, body)], SlotsOf(ss[1..], segSize));
        assert [Plain(tag, body)][1..] == [];
      case SentTrain(u, m, b) =>
        TrainRoundTrip(types, u, m, b, segSize);
        FeedConcat(Idle, types, Train(u, m, b, segSize), SlotsOf(ss[1..], segSize));
    }
  }

  // ---- the sender's loop ----------------------------------------------------------------------

  lemma {:induction false} SegmentsAt(cs: seq<seq<byte>>, i: nat)
    requires i < |cs|
    ensures Segments(cs)[i] == Segment(cs[i])
  {
    if i > 0 { SegmentsAt(cs[1..], i - 1); }
  }

  lemma SliceOfRest(bytes: seq<byte>, d: nat, i: nat, j: nat)
    requires d <= |bytes| && i <= j <= |bytes| - d
    ensures bytes[d..][i..j] == bytes[d + i..d + j]
  {
  }

  lemma {:induction false} ChunkAt(bytes: seq<byte>, segSize: nat, i: nat)
    requires segSize > 0 && i < |Chunks(bytes, segSize)|
    ensures i * segSize < |bytes|
    ensures Chunks(bytes, segSize)[i] == bytes[i * segSize..Min(|bytes|, i * segSize + segSize)]
    decreases i
  {
    if i == 0 {
      assert 0 * segSize == 0 && bytes[..|bytes|] == bytes;
    } else {
      ChunkAt(bytes[segSize..], segSize, i - 1);
      var from := (i - 1) * segSize;
      assert i * segSize == from + segSize;
      SliceOfRest(bytes, segSize, from, Min(|bytes| - segSize, from + segSize));
    }
  }

  /** Ring memory once `xs` are written from sequence `at` on. */
  function Write(ring: seq<Slot>, at: nat, xs: seq<Slot>): (r: seq<Slot>)
    requires |ring| > 0
    ensures |r| == |ring|
  {
    if xs == [] then ring
    else Write(ring, at, xs[..|xs| - 1])[(at + |xs| - 1) % |ring| := xs[|xs| - 1]]
  }

  /** What fits into the ring is found where it was written. */
  lemma {:induction false} WrittenAt(ring: seq<Slot>, at: nat, xs: seq<Slot>, i: nat)
    requires |ring| > 0 && i < |xs| <= |ring|
    ensures Write(ring, at, xs)[(at + i) % |ring|] == xs[i]
    decreases |xs|
  {
    if i < |xs| - 1 {
      WrittenAt(ring, at, xs[..|xs| - 1], i);
      if (at + i) % |ring| == (at + |xs| - 1) % |ring| { SameSlot(at + i, at + |xs| - 1, |ring|); }
    }
  }

  lemma WriteOneMore(ring: seq<Slot>, at: nat, xs: seq<Slot>, i: nat)
    requires |ring| > 0 && i < |xs|
    ensures Write(ring, at, xs[..i + 1]) == Write(ring, at, xs[..i])[(at + i) % |ring| := xs[i]]
  {
    assert xs[..i + 1][..i] == xs[..i];
  }

  /** The i-th slot of a train: its bytes start i - 1 segment sizes into the attachment. */
  lemma TrainAt(under: Tag, msg: seq<byte>, att: seq<byte>, segSize: nat, i: nat)
    requires segSize > 0 && 1 <= i < |Train(under, msg, att, segSize)|
    ensures (i - 1) * segSize < |att|
    ensures Train(under, msg, att, segSize)[i] == Segment(att[(i - 1) * segSize..Min(|att|, (i - 1) * segSize + segSize)])
    ensures (i - 1) * segSize + segSize == i * segSize
  {
    ChunkAt(att, segSize, i - 1);
    SegmentsAt(Chunks(att, segSize), i - 1);
  }

  /**
   * Writes a message and its attachment into the slots claimed from sequence `at` on, or refuses when they
   * would not fit into the ring.
   */
  method Send(ring: array<Slot>, at: nat, under: Tag, msg: seq<byte>, att: seq<byte>, segSize: nat) returns (ok: bool, n: nat)
    requires segSize > 0 && ring.Length > 0
    modifies ring
    ensures n == |Train(under, msg, att, segSize)| && (ok <==> n <= ring.Length)
    ensures ring[..] == if ok then Write(old(ring[..]), at, Train(under, msg, att, segSize)) else old(ring[..])
  {
    n := (|att| + segSize - 1) / segSize + 1;
    ChunkCount(att, segSize);
    if n > ring.Length { return false, n; }
    ghost var train := Train(under, msg, att, segSize);
    WriteOneMore(ring[..], at, train, 0);
    ring[at % ring.Length] := Head(under, msg, |att|);
    var it, segStart, remaining := 1, 0, |att|;
    while it < n
      invariant 1 <= it <= n == |train| && segStart + remaining == |att|
      invariant segStart == Min(|att|, (it - 1) * segSize)
      invariant ring[..] == Write(old(ring[..]), at, train[..it])
    {
      TrainAt(under, msg, att, segSize, it);
      WriteOneMore(old(ring[..]), at, train, it);
      var bytes := Min(segSize, remaining);
      ring[(at + it) % ring.Length] := Segment(att[segStart..segStart + bytes]);
      segStart := segStart + bytes;
      remaining := remaining - bytes;
      it := it + 1;
    }
    assert train[..n] == train;
    ok := true;
  }

  // ---- the reassembler ------------------------------------------------------------------------

  class InBandMemoryAttachmentProcessor {
    /** The buffer the attachment is gathered in; none while idle. */
    var attachment: array?<byte>
    var len: nat
    var accSize: nat
    var typeTag: Tag
    var underlying: seq<byte>

    ghost predicate Valid()
      reads this, attachment
    {
      attachment != null ==> attachment.Length == len && accSize <= len
    }

    ghost function State(): Proc
      requires Valid()
      reads this, attachment
    {
      if attachment == null then Idle else Busy(typeTag, underlying, len, attachment[..accSize])
    }

    constructor ()
      ensures Valid() && State() == Idle
    {
      attachment, len, accSize, typeTag, underlying := null, 0, 0, 0, [];
    }

    /** Starts a new attachment; true when there is nothing to gather. */
    method Cache(under: Tag, msg: seq<byte>, n: nat) returns (whole: bool)
      requires Valid() && State() == Idle
      modifies this
      ensures Valid() && whole == (n == 0) && (attachment != null ==> fresh(attachment))
      ensures State() == if n == 0 then Idle else Busy(under, msg, n, [])
      ensures typeTag == under && underlying == msg
    {
      typeTag, underlying, len, accSize := under, msg, n, 0;
      if n == 0 {
        attachment := null;
        return true;
      }
      attachment := new byte[n](_ => 0);
      assert attachment[..0] == [];
      whole := false;
    }

    /** Copies what is still missing; true when the attachment is complete. */
    method Gather(bytes: seq<byte>) returns (full: bool)
      requires Valid() && attachment != null
      modifies this`accSize, attachment
      ensures Valid() && attachment == old(attachment)
      ensures (State(), full) == Accumulate(old(State()), bytes)
    {
      if accSize >= len { return true; }
      var copySize := Min(|bytes|, len - accSize);
      var i := 0;
      while i < copySize
        invariant 0 <= i <= copySize && Valid() && accSize == old(accSize)
        invariant attachment[..accSize] == old(attachment[..accSize]) && attachment[accSize..accSize + i] == bytes[..i]
      {
        attachment[accSize + i] := bytes[i];
        i := i + 1;
      }
      assert attachment[..accSize + copySize] == attachment[..accSize] + attachment[accSize..accSize + copySize];
      accSize := accSize + copySize;
      full := accSize == len;
    }

    /** One listed type looks at the slot. */
    method Look(k: nat, t: Type, x: Slot) returns (call: Option<Call>, done: bool)
      requires Valid()
      modifies this, attachment
      ensures Valid() && (attachment != null ==> attachment == old(attachment) || fresh(attachment))
      ensures Glance(State(), call, done) == LookAt(old(State()), k, t, x)
    {
      if TagOf(x) in t.tags { return if x.Plain? then Some(CallPlain(k, x.tag, x.body)) else None, true; }
      if !t.att { return None, false; }
      if attachment != null {
        if !x.Segment? { return None, false; }
        var full := Gather(x.bytes);
        if !full { return None, true; }
        if typeTag !in t.tags { return None, false; }
        call := Some(CallAtt(k, typeTag, underlying, attachment[..accSize]));
        attachment := null;
        return call, true;
      }
      if x.Head? && x.under in t.tags {
        var whole := Cache(x.under, x.msg, x.len);
        return if whole then Some(CallAtt(k, typeTag, underlying, [])) else None, true;
      }
      return None, false;
    }

    /** The listed types look at the slot in turn, until one has dealt with it. */
    method DispatchSlot(types: seq<Type>, x: Slot) returns (calls: seq<Call>)
      requires Valid()
      modifies this, attachment
      ensures Valid() && (State(), calls) == Dispatch(old(State()), types, 0, x)
    {
      ghost var goal := Dispatch(State(), types, 0, x);
      calls := [];
      var k := 0;
      while k < |types|
        invariant 0 <= k <= |types| && Valid() && Dispatch(State(), types, k, x) == goal
        invariant attachment != null ==> attachment == old(attachment) || fresh(attachment)
      {
        var call, done := Look(k, types[k], x);
        if done { return if call.Some? then [call.value] else []; }
        k := k + 1;
      }
    }
  }
}
