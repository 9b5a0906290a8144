/** The bytes a sending session puts on the backup connection: hmbdc/tips/reliable/BackupSendSessionT.hpp, lines 150-206. */
module SendBytes {
  import opened Common
  import opened Messages
  import opened Sender
  import opened Relic
  import F = Frames

  // ---- what is sent ---------------------------------------------------------------------------

  /** A ring slot: the entry and its bytes, of which the last `tail` are kept apart from the rest. */
  datatype Slot = Slot(entry: Entry, bytes: seq<byte>, tail: nat)

  function FlushBytes(flag: byte): seq<byte> { F.Encode(F.Frame(flag, [])) }

  /** The bytes a subscriber is sent for a slot. */
  function SlotBytes(subs: set<Tag>, flag: byte, x: Slot): seq<byte>
  {
    if Resends(subs, x.entry) then x.bytes else FlushBytes(flag)
  }

  /** The bytes for a sequence. */
  function PieceAt(slots: seq<Slot>, subs: set<Tag>, flag: byte): nat -> seq<byte>
    requires |slots| > 0
  {
    (s: nat) => SlotBytes(subs, flag, slots[s % |slots|])
  }

  /** The bytes for sequences `from`, `from` + 1, ..., `n` of them. */
  function RangeBytes(slots: seq<Slot>, subs: set<Tag>, flag: byte, from: nat, n: nat): seq<byte>
    requires |slots| > 0
  {
    Gathered(PieceAt(slots, subs, flag), from, n)
  }

  function BytesOf(slots: seq<Slot>, subs: set<Tag>, flag: byte, seqs: seq<nat>): seq<byte>
    requires |slots| > 0
  {
    if seqs == [] then []
    else BytesOf(slots, subs, flag, seqs[..|seqs| - 1]) + SlotBytes(subs, flag, slots[seqs[|seqs| - 1] % |slots|])
  }

  function Upto(from: nat, n: nat): (r: seq<nat>)
    ensures |r| == n
  {
    seq(n, i requires 0 <= i => from + i)
  }

  /** The sequences a queue still asks for. */
  function Expand(q: seq<Request>): seq<nat>
  {
    if q == [] then [] else Upto(q[0].s, q[0].len) + Expand(q[1..])
  }

  /** Work left: every turn of the loop lowers it. */
  function Owed(q: seq<Request>): nat
  {
    if q == [] then 0 else q[0].len + 1 + Owed(q[1..])
  }

  lemma {:induction false} RangeIsBytesOf(slots: seq<Slot>, subs: set<Tag>, flag: byte, from: nat, n: nat)
    requires |slots| > 0
    ensures BytesOf(slots, subs, flag, Upto(from, n)) == RangeBytes(slots, subs, flag, from, n)
  {
    if n > 0 {
      assert Upto(from, n)[..n - 1] == Upto(from, n - 1);
      RangeIsBytesOf(slots, subs, flag, from, n - 1);
    }
  }

  lemma {:induction false} BytesOfConcat(slots: seq<Slot>, subs: set<Tag>, flag: byte, a: seq<nat>, b: seq<nat>)
    requires |slots| > 0
    ensures BytesOf(slots, subs, flag, a + b) == BytesOf(slots, subs, flag, a) + BytesOf(slots, subs, flag, b)
    decreases |b|
  {
    if b == [] {
      assert a + b == a;
    } else {
      var b', last := b[..|b| - 1], SlotBytes(subs, flag, slots[b[|b| - 1] % |slots|]);
      assert (a + b)[..|a + b| - 1] == a + b';
      BytesOfConcat(slots, subs, flag, a, b');
      Regroup(BytesOf(slots, subs, flag, a), BytesOf(slots, subs, flag, b'), last);
    }
  }

  lemma RangeMore(slots: seq<Slot>, subs: set<Tag>, flag: byte, from: nat, n: nat)
    requires |slots| > 0
    ensures var x := slots[(from + n) % |slots|];
            && RangeBytes(slots, subs, flag, from, n + 1) == RangeBytes(slots, subs, flag, from, n) + SlotBytes(subs, flag, x)
            && |SlotBytes(subs, flag, x)| == if Resends(subs, x.entry) then |x.bytes| else F.HEADER
  {
  }

  lemma UptoSplit(from: nat, k: nat, n: nat)
    requires k <= n
    ensures Upto(from, n) == Upto(from, k) + Upto(from + k, n - k)
  {
  }

  /** The queue once `k` sequences of its first request are handed over. */
  function Remaining(q: seq<Request>, k: nat): seq<Request>
    requires q != [] && k <= q[0].len
  {
    if k == q[0].len then q[1..] else [Request(q[0].s + k, q[0].len - k)] + q[1..]
  }

  lemma ExpandHead(r: Request, q: seq<Request>)
    ensures Expand([r] + q) == Upto(r.s, r.len) + Expand(q)
  {
    assert ([r] + q)[1..] == q;
  }

  /** Nothing is lost when a request is split over batches: the next one resumes at the right sequence. */
  lemma ExpandServed(q: seq<Request>, k: nat)
    requires q != [] && k <= q[0].len
    ensures Upto(q[0].s, k) + Expand(Remaining(q, k)) == Expand(q)
  {
    if k < q[0].len {
      var r, tail := Request(q[0].s + k, q[0].len - k), Expand(q[1..]);
      calc {
        Upto(q[0].s, k) + Expand(Remaining(q, k));
      == { assert Remaining(q, k) == [r] + q[1..]; ExpandHead(r, q[1..]); }
        Upto(q[0].s, k) + (Upto(r.s, r.len) + tail);
      == { Regroup(Upto(q[0].s, k), Upto(r.s, r.len), tail); }
        (Upto(q[0].s, k) + Upto(r.s, r.len)) + tail;
      == { UptoSplit(q[0].s, k, q[0].len); }
        Upto(q[0].s, q[0].len) + tail;
      ==
        Expand(q);
      }
    } else {
      assert Remaining(q, k) == q[1..];
    }
  }

  // ---- what a turn hands over -----------------------------------------------------------------

  /** From queue `q0` and bytes `w0` on the wire or waiting, handing over `n` leads to `q` and `w`. */
  ghost predicate Served(slots: seq<Slot>, subs: set<Tag>, flag: byte, w0: seq<byte>, q0: seq<Request>, n: seq<nat>, w: seq<byte>, q: seq<Request>)
    requires |slots| > 0
  {
    w == w0 + BytesOf(slots, subs, flag, n) && n + Expand(q) == Expand(q0)
  }

  lemma NothingServed(slots: seq<Slot>, subs: set<Tag>, flag: byte, w: seq<byte>, q: seq<Request>)
    requires |slots| > 0
    ensures Served(slots, subs, flag, w, q, [], w, q)
  {
  }

  lemma ServedMore(slots: seq<Slot>, subs: set<Tag>, flag: byte, w0: seq<byte>, q0: seq<Request>,
                   n: seq<nat>, w: seq<byte>, q: seq<Request>, m: seq<nat>, w': seq<byte>, q': seq<Request>)
    requires |slots| > 0 && Served(slots, subs, flag, w0, q0, n, w, q) && Served(slots, subs, flag, w, q, m, w', q')
    ensures Served(slots, subs, flag, w0, q0, n + m, w', q')
  {
    BytesOfConcat(slots, subs, flag, n, m);
    Regroup(w0, BytesOf(slots, subs, flag, n), BytesOf(slots, subs, flag, m));
    Regroup(n, m, Expand(q'));
  }

  /** The bytes still waiting belong to sequences handed over last, none of them before `next`. */
  ghost predicate Unsent(slots: seq<Slot>, subs: set<Tag>, flag: byte, n: seq<nat>, next: nat, waiting: nat)
    requires |slots| > 0
  {
    exists last: nat :: UnsentFrom(slots, subs, flag, n, last, next, waiting)
  }

  ghost predicate UnsentFrom(slots: seq<Slot>, subs: set<Tag>, flag: byte, n: seq<nat>, last: nat, next: nat, waiting: nat)
    requires |slots| > 0
  {
    && last <= |n| && (forall i :: last <= i < |n| ==> next <= n[i])
    && waiting <= |BytesOf(slots, subs, flag, n[last..])|
  }

  lemma UnsentTail(slots: seq<Slot>, subs: set<Tag>, flag: byte, n: seq<nat>, m: seq<nat>, next: nat, waiting: nat)
    requires |slots| > 0 && (forall i :: 0 <= i < |m| ==> next <= m[i]) && waiting <= |BytesOf(slots, subs, flag, m)|
    ensures Unsent(slots, subs, flag, n + m, next, waiting)
  {
    assert (n + m)[|n|..] == m;
    assert UnsentFrom(slots, subs, flag, n + m, |n|, next, waiting);
  }

  /** How many of `size` bytes are gone after the kernel's answer. */
  function Taken(answer: int, size: nat): (n: nat)
    ensures n <= size
  {
    if answer < 0 then 0 else Min(answer, size)
  }

  /** With nothing left to serve, all that was asked for has been handed over. */
  lemma AllServed(slots: seq<Slot>, subs: set<Tag>, flag: byte, w0: seq<byte>, q0: seq<Request>, n: seq<nat>, w: seq<byte>)
    requires |slots| > 0 && Served(slots, subs, flag, w0, q0, n, w, [])
    ensures n == Expand(q0) && w == w0 + BytesOf(slots, subs, flag, Expand(q0))
  {
    assert n + [] == n;
  }

  ghost predicate Usable(slots: seq<Slot>)
  {
    |slots| > 0 && forall i :: 0 <= i < |slots| ==> slots[i].tail <= |slots[i].bytes|
  }

  lemma FlatOne(v: seq<IoVec>, x: IoVec)
    ensures Flat(v + [x]) == Flat(v) + x
  {
    FlatOfConcat(v, [x]);
    assert Flat([x]) == x + Flat([]);
  }

  lemma FlatTwo(v: seq<IoVec>, x: IoVec, i: nat)
    requires i <= |x|
    ensures Flat(v + [x[..i], x[i..]]) == Flat(v) + x
  {
    var w := [x[..i], x[i..]];
    FlatOfConcat(v, w);
    assert w[1..] == [x[i..]] && Flat([x[i..]]) == x[i..] + Flat([]);
  }

  // ---- the protocol's frames ------------------------------------------------------------------

  /** Each slot holds the frame of its entry. */
  ghost predicate Framed(slots: seq<Slot>)
  {
    && Usable(slots)
    && forall i :: 0 <= i < |slots| ==> F.Complete(slots[i].bytes) && F.WireSize(slots[i].bytes) == |slots[i].bytes|
                                        && F.ItemOf(F.Head(slots[i].bytes)) == Receiver.Item(slots[i].entry.msg)
  }

  function Entries(slots: seq<Slot>): (r: seq<Entry>)
    ensures |r| == |slots| && forall i :: 0 <= i < |r| ==> r[i] == slots[i].entry
  {
    seq(|slots|, i requires 0 <= i < |slots| => slots[i].entry)
  }

  /** The frame a slot's bytes are, as sent to this subscriber. */
  function SentFrame(subs: set<Tag>, flag: byte, x: Slot): (f: F.Frame)
    requires F.Complete(x.bytes)
    ensures F.Fits(f)
  {
    if Resends(subs, x.entry) then F.Head(x.bytes) else F.Frame(flag, [])
  }

  lemma SlotIsItsFrame(subs: set<Tag>, flag: byte, x: Slot)
    requires F.Complete(x.bytes) && F.WireSize(x.bytes) == |x.bytes| && F.ItemOf(F.Head(x.bytes)) == Receiver.Item(x.entry.msg)
    ensures F.Encode(SentFrame(subs, flag, x)) == SlotBytes(subs, flag, x)
    ensures F.ItemOf(SentFrame(subs, flag, x)) == FrameOf(subs, x.entry)
  {
    F.EncodeOfHead(x.bytes);
    assert x.bytes[F.WireSize(x.bytes)..] == [];
  }

  lemma FramesSnoc(slots: seq<Entry>, subs: set<Tag>, from: nat, n: nat)
    requires |slots| > 0
    ensures Frames(slots, subs, from, from + n + 1) == Frames(slots, subs, from, from + n) + [FrameOf(subs, slots[(from + n) % |slots|])]
  {
  }

  function FramesSent(slots: seq<Slot>, subs: set<Tag>, flag: byte, from: nat, n: nat): (fs: seq<F.Frame>)
    requires |slots| > 0 && forall i :: 0 <= i < |slots| ==> F.Complete(slots[i].bytes)
    ensures |fs| == n && forall i :: 0 <= i < n ==> F.Fits(fs[i])
  {
    if n == 0 then []
    else FramesSent(slots, subs, flag, from, n - 1) + [SentFrame(subs, flag, slots[(from + (n - 1)) % |slots|])]
  }

  /** One more frame is one more slot's bytes. */
  lemma OneMoreFrame(subs: set<Tag>, flag: byte, fs: seq<F.Frame>, x: Slot)
    requires F.Complete(x.bytes) && F.WireSize(x.bytes) == |x.bytes| && F.ItemOf(F.Head(x.bytes)) == Receiver.Item(x.entry.msg)
    requires forall i :: 0 <= i < |fs| ==> F.Fits(fs[i])
    ensures F.EncodeAll(fs + [SentFrame(subs, flag, x)]) == F.EncodeAll(fs) + SlotBytes(subs, flag, x)
  {
    EncodeSnoc(fs, SentFrame(subs, flag, x));
    SlotIsItsFrame(subs, flag, x);
  }

  /** The bytes for a range of sequences are the encoding of these frames ... */
  lemma {:induction false} BytesAreTheFrames(slots: seq<Slot>, subs: set<Tag>, flag: byte, from: nat, n: nat)
    requires Framed(slots)
    ensures F.EncodeAll(FramesSent(slots, subs, flag, from, n)) == RangeBytes(slots, subs, flag, from, n)
  {
    if n > 0 {
      var m: nat := n - 1;
      var x, fs := slots[(from + m) % |slots|], FramesSent(slots, subs, flag, from, m);
      BytesAreTheFrames(slots, subs, flag, from, m);
      OneMoreFrame(subs, flag, fs, x);
      RangeMore(slots, subs, flag, from, m);
      calc {
        F.EncodeAll(FramesSent(slots, subs, flag, from, n));
      == { assert FramesSent(slots, subs, flag, from, n) == fs + [SentFrame(subs, flag, x)]; }
        F.EncodeAll(fs) + SlotBytes(subs, flag, x);
      ==
        RangeBytes(slots, subs, flag, from, n);
      }
    }
  }

  /** ... and these are the items the protocol sends for it. */
  lemma {:induction false} FramesAreTheItems(slots: seq<Slot>, subs: set<Tag>, flag: byte, from: nat, n: nat)
    requires Framed(slots)
    ensures F.ItemsOf(FramesSent(slots, subs, flag, from, n)) == Frames(Entries(slots), subs, from, from + n)
  {
    if n > 0 {
      var m: nat := n - 1;
      var x, fs := slots[(from + m) % |slots|], FramesSent(slots, subs, flag, from, m);
      FramesAreTheItems(slots, subs, flag, from, m);
      OneMoreItem(subs, flag, fs, x);
      FramesSnoc(Entries(slots), subs, from, m);
      calc {
        F.ItemsOf(FramesSent(slots, subs, flag, from, n));
      == { assert FramesSent(slots, subs, flag, from, n) == fs + [SentFrame(subs, flag, x)]; }
        F.ItemsOf(fs) + [FrameOf(subs, x.entry)];
      == { assert Entries(slots)[(from + m) % |slots|] == x.entry; }
        Frames(Entries(slots), subs, from, from + m) + [FrameOf(subs, Entries(slots)[(from + m) % |slots|])];
      ==
        Frames(Entries(slots), subs, from, from + n);
      }
    }
  }

  lemma OneMoreItem(subs: set<Tag>, flag: byte, fs: seq<F.Frame>, x: Slot)
    requires F.Complete(x.bytes) && F.WireSize(x.bytes) == |x.bytes| && F.ItemOf(F.Head(x.bytes)) == Receiver.Item(x.entry.msg)
    ensures F.ItemsOf(fs + [SentFrame(subs, flag, x)]) == F.ItemsOf(fs) + [FrameOf(subs, x.entry)]
  {
    ItemsSnoc(fs, SentFrame(subs, flag, x));
    SlotIsItsFrame(subs, flag, x);
  }

  lemma {:induction false} EncodeSnoc(fs: seq<F.Frame>, f: F.Frame)
    requires F.Fits(f) && forall i :: 0 <= i < |fs| ==> F.Fits(fs[i])
    ensures F.EncodeAll(fs + [f]) == F.EncodeAll(fs) + F.Encode(f)
  {
    if fs == [] {
      assert [f][1..] == [];
    } else {
      assert (fs + [f])[1..] == fs[1..] + [f];
      EncodeSnoc(fs[1..], f);
      Regroup(F.Encode(fs[0]), F.EncodeAll(fs[1..]), F.Encode(f));
    }
  }

  lemma {:induction false} ItemsSnoc(fs: seq<F.Frame>, f: F.Frame)
    ensures F.ItemsOf(fs + [f]) == F.ItemsOf(fs) + [F.ItemOf(f)]
  {
    if fs == [] {
      assert [f][1..] == [];
    } else {
      assert (fs + [f])[1..] == fs[1..] + [f];
      ItemsSnoc(fs[1..], f);
    }
  }
}
