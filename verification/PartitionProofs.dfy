/** Safety of the partition ring. */
module PartitionProofs {
  import opened Common
  import opened PartitionRing

  // ---- the invariant --------------------------------------------------------------------------

  /** Claimed and not committed yet: [OpenLo, OpenHi). */
  function OpenLo(x: Producer): nat
  {
    match x
    case WaitRoom(_, s) => s
    case WaitSlots(_, s, _) => s
    case Writing(_, s, _, _) => s
    case Committing(_, s, k) => s + k
    case _ => 0
  }

  function OpenHi(x: Producer): nat
  {
    match x
    case WaitRoom(items, s) => s + |items|
    case WaitSlots(items, s, _) => s + |items|
    case Writing(items, s, _, _) => s + |items|
    case Committing(items, s, _) => s + |items|
    case _ => 0
  }

  predicate Open(x: Producer, u: nat) { OpenLo(x) <= u < OpenHi(x) }

  /** Sequences whose slots the producer found given back. */
  predicate MayWrite(x: Producer, u: nat)
  {
    Open(x, u) && (x.Writing? || x.Committing? || (x.WaitSlots? && u < x.s + x.i))
  }

  /** How many words of `u` the producer has written. */
  function Written(r: Ring, x: Producer, u: nat): nat
  {
    match x
    case Writing(_, s, k, w) => if u < s + k then r.width else if u == s + k then w else 0
    case Committing(_, _, _) => r.width
    case _ => 0
  }

  /** The entry of `u` is committed and not given back. */
  predicate Stored(r: Ring, u: nat) { u in r.done && u !in r.freed }

  ghost predicate Holds(r: Ring, u: nat)
  {
    |r.slots| > 0 && u < |r.log| && r.slots[u % |r.slots|] == Slot(Some(u), r.log[u])
  }

  ghost predicate WordsOk(r: Ring, u: nat, n: nat)
  {
    && |r.slots| > 0 && u < |r.log| && n <= |r.slots[u % |r.slots|].words| == |r.log[u]|
    && forall j :: 0 <= j < n ==> r.slots[u % |r.slots|].words[j] == r.log[u][j]
  }

  /** No stored entry shares the slot of `u`. */
  ghost predicate Vacant(r: Ring, u: nat)
  {
    |r.slots| > 0 && forall w: nat :: Stored(r, w) ==> w % |r.slots| != u % |r.slots|
  }

  predicate HasClaim(x: Producer) { x.WaitRoom? || x.WaitSlots? || x.Writing? || x.Committing? }

  /** What the producer itself remembers. */
  ghost predicate Shape(r: Ring, x: Producer)
  {
    && (HasClaim(x) ==> x.s + |x.items| <= |r.log| && r.log[x.s..x.s + |x.items|] == x.items && |x.items| >= 1)
    && (HasClaim(x) && !x.WaitRoom? ==> x.s + |x.items| <= r.cap + r.readSeq)
    && (x.WaitSlots? ==> x.i < |x.items|)
    && (x.Writing? ==> x.k <= |x.items| && x.w <= r.width && (x.k == |x.items| ==> x.w == 0))
    && (x.Committing? ==> x.k <= |x.items|)
    && (x.TryRoom? || x.TrySlot? || x.TryCas? ==> x.s <= |r.log| && |x.item| == r.width)
    && (x.TrySlot? || x.TryCas? ==> x.s < r.cap + r.readSeq)
  }

  ghost predicate SlotsOk(r: Ring, x: Producer)
  {
    && (forall u: nat :: Open(x, u) ==> u !in r.done)
    && (forall u: nat :: MayWrite(x, u) ==> Vacant(r, u))
    && (forall u: nat :: MayWrite(x, u) ==> WordsOk(r, u, Written(r, x, u)))
    && (x.TryCas? && x.s == |r.log| ==> Vacant(r, x.s))
  }

  ghost predicate ProducerOk(r: Ring, x: Producer) { Shape(r, x) && SlotsOk(r, x) }

  ghost predicate Apart(x: Producer, y: Producer) { forall u: nat :: Open(x, u) ==> !Open(y, u) }

  ghost predicate ProducersApart(ps: seq<Producer>)
  {
    forall p, q :: 0 <= p < |ps| && 0 <= q < |ps| && p != q ==> Apart(ps[p], ps[q])
  }

  predicate Owns(y: Consumer, u: nat) { y.Hold? && y.w <= u < y.e }

  ghost predicate ConsumerOk(r: Ring, y: Consumer)
  {
    match y
    case Free => true
    case Scan(b, e) => b <= r.readSeq && b <= e && forall u: nat :: b <= u < e ==> u in r.done
    case Hold(b, e, w) => b <= w <= e <= r.readSeq && forall u: nat :: w <= u < e ==> u !in r.freed
    case Copy(s, seen, copied) =>
      && s <= r.readSeq && |copied| <= r.width
      && (seen ==> s in r.done)
      && (r.readSeq == s && seen ==> s < |r.log| && |copied| <= |r.log[s]| && copied == r.log[s][..|copied|])
  }

  ghost predicate Disjoint(y: Consumer, z: Consumer) { forall u: nat :: Owns(y, u) ==> !Owns(z, u) }

  ghost predicate ConsumersApart(ys: seq<Consumer>)
  {
    forall c, d :: 0 <= c < |ys| && 0 <= d < |ys| && c != d ==> Disjoint(ys[c], ys[d])
  }

  /** The ranges handed out follow one another from 0 to the read cursor. */
  ghost predicate Chained(h: seq<Handed>, upto: nat)
  {
    if h == [] then upto == 0
    else h[|h| - 1].b <= h[|h| - 1].e == upto && Chained(h[..|h| - 1], h[|h| - 1].b)
  }

  ghost predicate ValueOk(r: Ring, h: Handed)
  {
    h.value.Some? ==> h.b < |r.log| && h.e == h.b + 1 && h.value.value == r.log[h.b]
  }

  ghost predicate HandedOk(r: Ring)
  {
    Chained(r.handed, r.readSeq) && forall i :: 0 <= i < |r.handed| ==> ValueOk(r, r.handed[i])
  }

  ghost predicate Sized(r: Ring)
  {
    && r.cap > 0 && |r.slots| == r.cap
    && (forall i :: 0 <= i < |r.slots| ==> |r.slots[i].words| == r.width)
    && (forall u :: 0 <= u < |r.log| ==> |r.log[u]| == r.width)
  }

  ghost predicate Ordered(r: Ring)
  {
    && r.readSeq <= |r.log|
    && (forall u: nat :: u < r.readSeq ==> u in r.done)
    && (forall u :: u in r.freed ==> u < r.readSeq)
    && (forall u :: u in r.done ==> u < |r.log| && u < r.cap + r.readSeq)
  }

  ghost predicate Tagged(r: Ring)
  {
    && (forall u: nat :: Stored(r, u) ==> Holds(r, u))
    && (forall i :: 0 <= i < |r.slots| && r.slots[i].tag.Some? ==>
          Stored(r, r.slots[i].tag.value) && r.slots[i].tag.value % |r.slots| == i)
  }

  ghost predicate Base(r: Ring) { Sized(r) && Ordered(r) && Tagged(r) && HandedOk(r) }

  ghost predicate Inv(m: System)
  {
    && Base(m.ring)
    && (forall p :: 0 <= p < |m.producers| ==> ProducerOk(m.ring, m.producers[p]))
    && ProducersApart(m.producers)
    && (forall c :: 0 <= c < |m.consumers| ==> ConsumerOk(m.ring, m.consumers[c]))
    && ConsumersApart(m.consumers)
  }

  // ---- slots ----------------------------------------------------------------------------------

  /** Two unread sequences with room behind the read cursor have different slots. */
  lemma WindowSlots(r: Ring, u: nat, w: nat)
    requires r.cap > 0 && Ordered(r) && u != w && u !in r.done && w !in r.done
    requires u < r.cap + r.readSeq && w < r.cap + r.readSeq
    ensures u % r.cap != w % r.cap
  {
    if u % r.cap == w % r.cap {
      assert u >= r.readSeq && w >= r.readSeq;
      SameSlot(u, w, r.cap);
    }
  }

  /** A slot without a tag stores nothing. */
  lemma ReadyIsVacant(r: Ring, u: nat)
    requires Tagged(r) && Ready(r, u)
    ensures Vacant(r, u)
  {
    forall w: nat | Stored(r, w) ensures w % |r.slots| != u % |r.slots| {
      assert Holds(r, w);
    }
  }

  /** And a slot that stores nothing has no tag. */
  lemma VacantIsReady(r: Ring, u: nat)
    requires Tagged(r) && Vacant(r, u)
    ensures Ready(r, u)
  {
    var i := u % |r.slots|;
    assert r.slots[i].tag.Some? ==> Stored(r, r.slots[i].tag.value);
  }

  lemma InWindow(r: Ring, x: Producer, u: nat)
    requires ProducerOk(r, x) && MayWrite(x, u)
    ensures u !in r.done && u < |r.log| && u < r.cap + r.readSeq && Vacant(r, u) && WordsOk(r, u, 0)
    ensures HasClaim(x) && u - x.s < |x.items| && r.log[u] == x.items[u - x.s]
  {
    assert Open(x, u) && WordsOk(r, u, Written(r, x, u));
    assert r.log[x.s..x.s + |x.items|][u - x.s] == r.log[u];
  }

  // ---- producers ------------------------------------------------------------------------------

  ghost predicate Grows(r: Ring, r': Ring)
  {
    && r'.cap == r.cap && r'.width == r.width && |r'.slots| == |r.slots|
    && |r.log| <= |r'.log| && r'.log[..|r.log|] == r.log
    && r.readSeq <= r'.readSeq
  }

  lemma ShapeGrows(r: Ring, r': Ring, x: Producer)
    requires Shape(r, x) && Grows(r, r')
    ensures Shape(r', x)
  {
    if HasClaim(x) { PrefixSlice(r.log, r'.log, x.s, x.s + |x.items|); }
  }

  /** The producer's own part after a step that leaves memory alone. */
  lemma LocalShape(r: Ring, x: Producer, op: ProducerOp)
    requires Sized(r) && Shape(r, x) && ProducerEnabled(r, x, op)
    requires !op.Claim? && !op.CasOk?
    ensures Shape(r, ProducerMove(r, x, op))
    ensures forall u: nat :: Open(ProducerMove(r, x, op), u) ==> Open(x, u)
  {
    LocalOpens(r, x, op);
    if op.NextSlot? || op.WriteWord? {
      assert r.log[x.s..x.s + |x.items|][x.k] == x.items[x.k] == r.log[x.s + x.k];
    }
  }

  lemma LocalOpens(r: Ring, x: Producer, op: ProducerOp)
    requires Sized(r) && Shape(r, x) && ProducerEnabled(r, x, op)
    requires !op.Claim? && !op.CasOk?
    ensures forall u: nat :: Open(ProducerMove(r, x, op), u) ==> Open(x, u)
  {
  }

  predicate MemoryOp(op: ProducerOp) { op.Claim? || op.CasOk? || op.WriteWord? || op.CommitOne? }

  lemma SlotOkMove(r: Ring, x: Producer)
    requires Base(r) && ProducerOk(r, x) && ProducerEnabled(r, x, SlotOk)
    ensures SlotsOk(r, ProducerMove(r, x, SlotOk))
  {
    var x' := ProducerMove(r, x, SlotOk);
    ReadyIsVacant(r, x.s + x.i);
    forall u: nat | MayWrite(x', u) ensures Vacant(r, u) && WordsOk(r, u, 0) {
      if u != x.s + x.i { assert MayWrite(x, u); InWindow(r, x, u); }
    }
  }

  lemma WrittenMove(r: Ring, x: Producer, op: ProducerOp)
    requires Base(r) && ProducerOk(r, x) && ProducerEnabled(r, x, op) && (op.NextSlot? || op.StartCommit?)
    ensures SlotsOk(r, ProducerMove(r, x, op))
  {
    var x' := ProducerMove(r, x, op);
    forall u: nat | MayWrite(x', u) ensures Vacant(r, u) && WordsOk(r, u, Written(r, x', u)) {
      assert MayWrite(x, u);
      InWindow(r, x, u);
    }
  }

  lemma LocalMove(r: Ring, x: Producer, op: ProducerOp)
    requires Base(r) && ProducerOk(r, x) && ProducerEnabled(r, x, op) && !MemoryOp(op)
    ensures ProducerOk(r, ProducerMove(r, x, op))
  {
    LocalShape(r, x, op);
    match op
    case SlotOk => SlotOkMove(r, x);
    case TrySlotOk => ReadyIsVacant(r, x.s);
    case NextSlot => WrittenMove(r, x, op);
    case StartCommit => WrittenMove(r, x, op);
    case _ =>
  }

  /** Writing a word touches neither what is stored nor what another producer writes. */
  lemma WriteOthers(r: Ring, x: Producer, y: Producer)
    requires Base(r) && ProducerOk(r, x) && ProducerOk(r, y) && Apart(x, y) && ProducerEnabled(r, x, WriteWord)
    ensures ProducerOk(ProducerEffect(r, x, WriteWord), y)
  {
    var r' := ProducerEffect(r, x, WriteWord);
    ShapeGrows(r, r', y);
    InWindow(r, x, x.s + x.k);
    forall u: nat | Vacant(r, u) ensures Vacant(r', u) {
      assert forall w: nat :: Stored(r', w) ==> Stored(r, w);
    }
    forall u: nat | MayWrite(y, u) ensures WordsOk(r', u, Written(r', y, u)) {
      InWindow(r, y, u);
      assert WordsOk(r, u, Written(r, y, u)) && Open(x, x.s + x.k);
      WindowSlots(r, u, x.s + x.k);
    }
  }

  lemma WriteOwn(r: Ring, x: Producer)
    requires Base(r) && ProducerOk(r, x) && ProducerEnabled(r, x, WriteWord)
    ensures ProducerOk(ProducerEffect(r, x, WriteWord), ProducerMove(r, x, WriteWord))
  {
    var r', x' := ProducerEffect(r, x, WriteWord), ProducerMove(r, x, WriteWord);
    LocalShape(r, x, WriteWord);
    InWindow(r, x, x.s + x.k);
    ShapeGrows(r, r', x');
    forall u: nat | MayWrite(x', u) ensures Vacant(r', u) && WordsOk(r', u, Written(r', x', u)) {
      assert MayWrite(x, u);
      InWindow(r, x, u);
      assert forall w: nat :: Stored(r', w) ==> Stored(r, w);
      assert WordsOk(r, u, Written(r, x, u));
      if u != x.s + x.k { WindowSlots(r, u, x.s + x.k); }
    }
  }

  lemma WriteBase(r: Ring, x: Producer)
    requires Base(r) && ProducerOk(r, x) && ProducerEnabled(r, x, WriteWord)
    ensures Base(ProducerEffect(r, x, WriteWord))
  {
    var r' := ProducerEffect(r, x, WriteWord);
    InWindow(r, x, x.s + x.k);
    VacantIsReady(r, x.s + x.k);
    forall u: nat | Stored(r', u) ensures Holds(r', u) { assert Stored(r, u) && Holds(r, u); }
    assert forall i :: 0 <= i < |r.slots| ==> r'.slots[i].tag == r.slots[i].tag;
    assert forall u: nat :: Stored(r, u) <==> Stored(r', u);
    assert forall i :: 0 <= i < |r.handed| ==> ValueOk(r, r.handed[i]) ==> ValueOk(r', r.handed[i]);
  }

  lemma CommitOthers(r: Ring, x: Producer, y: Producer)
    requires Base(r) && ProducerOk(r, x) && ProducerOk(r, y) && Apart(x, y) && ProducerEnabled(r, x, CommitOne)
    ensures ProducerOk(ProducerEffect(r, x, CommitOne), y)
  {
    var r', v := ProducerEffect(r, x, CommitOne), x.s + x.k;
    ShapeGrows(r, r', y);
    assert Open(x, v);
    InWindow(r, x, v);
    forall u: nat | Vacant(r, u) && u != v && u !in r.done && u < r.cap + r.readSeq ensures Vacant(r', u) {
      WindowSlots(r, u, v);
      forall w: nat | Stored(r', w) ensures w % |r.slots| != u % |r.slots| {
        if w != v { assert Stored(r, w); }
      }
    }
    forall u: nat | MayWrite(y, u) ensures Vacant(r', u) && WordsOk(r', u, Written(r', y, u)) {
      InWindow(r, y, u);
      assert WordsOk(r, u, Written(r, y, u));
      WindowSlots(r, u, v);
    }
  }

  lemma CommitOwn(r: Ring, x: Producer)
    requires Base(r) && ProducerOk(r, x) && ProducerEnabled(r, x, CommitOne)
    ensures ProducerOk(ProducerEffect(r, x, CommitOne), ProducerMove(r, x, CommitOne))
  {
    var r', x', v := ProducerEffect(r, x, CommitOne), ProducerMove(r, x, CommitOne), x.s + x.k;
    LocalShape(r, x, CommitOne);
    InWindow(r, x, v);
    ShapeGrows(r, r', x');
    forall u: nat | MayWrite(x', u) ensures Vacant(r', u) && WordsOk(r', u, Written(r', x', u)) {
      assert MayWrite(x, u);
      InWindow(r, x, u);
      assert WordsOk(r, u, Written(r, x, u));
      WindowSlots(r, u, v);
      forall w: nat | Stored(r', w) ensures w % |r.slots| != u % |r.slots| {
        if w != v { assert Stored(r, w); }
      }
    }
  }

  lemma CommitBase(r: Ring, x: Producer)
    requires Base(r) && ProducerOk(r, x) && ProducerEnabled(r, x, CommitOne)
    ensures Base(ProducerEffect(r, x, CommitOne))
  {
    var r', v := ProducerEffect(r, x, CommitOne), x.s + x.k;
    InWindow(r, x, v);
    VacantIsReady(r, v);
    assert WordsOk(r, v, Written(r, x, v)) && Written(r, x, v) == r.width;
    assert r.slots[v % |r.slots|].words == r.log[v];
    forall u: nat | Stored(r', u) ensures Holds(r', u) {
      if u != v { assert Stored(r, u) && Holds(r, u); }
    }
    forall i | 0 <= i < |r'.slots| && r'.slots[i].tag.Some?
      ensures Stored(r', r'.slots[i].tag.value) && r'.slots[i].tag.value % |r'.slots| == i
    {
      if i != v % |r.slots| { assert Stored(r, r.slots[i].tag.value); }
    }
    assert forall i :: 0 <= i < |r.handed| ==> ValueOk(r, r.handed[i]) ==> ValueOk(r', r.handed[i]);
  }

  /** Claiming only lengthens the log. */
  lemma ClaimBase(r: Ring, items: seq<seq<int>>)
    requires Base(r) && AllWide(r, items)
    ensures Base(r.(log := r.log + items))
  {
    var r' := r.(log := r.log + items);
    forall u: nat | Stored(r', u) ensures Holds(r', u) { assert Stored(r, u) && Holds(r, u); }
    assert forall i :: 0 <= i < |r.slots| && r.slots[i].tag.Some? ==> Stored(r, r.slots[i].tag.value);
    assert forall i :: 0 <= i < |r.handed| ==> ValueOk(r, r.handed[i]) ==> ValueOk(r', r.handed[i]);
  }

  lemma ClaimOthers(r: Ring, items: seq<seq<int>>, y: Producer)
    requires ProducerOk(r, y) && |items| >= 1
    ensures ProducerOk(r.(log := r.log + items), y)
  {
    var r' := r.(log := r.log + items);
    ShapeGrows(r, r', y);
    forall u: nat | Vacant(r, u) ensures Vacant(r', u) {
      assert forall w: nat :: Stored(r', w) ==> Stored(r, w);
    }
    forall u: nat | MayWrite(y, u) ensures WordsOk(r', u, Written(r', y, u)) {
      assert WordsOk(r, u, Written(r, y, u));
    }
  }

  /** A slot found vacant stays so when the claim succeeds. */
  lemma CasSlots(r: Ring, r': Ring, items: seq<seq<int>>, s: nat)
    requires Base(r) && Vacant(r, s) && s == |r.log| && |items| == 1 && |items[0]| == r.width
    requires r' == r.(log := r.log + items)
    ensures SlotsOk(r', Writing(items, s, 0, 0))
  {
    VacantStays(r, r', s);
    assert |r.slots[s % |r.slots|].words| == r.width;
    assert WordsOk(r', s, 0);
    assert s !in r.done;
  }

  lemma VacantStays(r: Ring, r': Ring, s: nat)
    requires Vacant(r, s) && r'.slots == r.slots && r'.done == r.done && r'.freed == r.freed
    ensures Vacant(r', s)
  {
    forall w: nat | Stored(r', w) ensures w % |r.slots| != s % |r.slots| { assert Stored(r, w); }
  }

  lemma ClaimOwn(r: Ring, x: Producer, op: ProducerOp)
    requires Base(r) && ProducerOk(r, x) && ProducerEnabled(r, x, op) && (op.Claim? || op.CasOk?)
    ensures ProducerOk(ProducerEffect(r, x, op), ProducerMove(r, x, op))
    ensures forall u: nat :: Open(ProducerMove(r, x, op), u) ==> u >= |r.log|
  {
    var r', x' := ProducerEffect(r, x, op), ProducerMove(r, x, op);
    assert r'.log[x'.s..x'.s + |x'.items|] == x'.items;
    if op.CasOk? {
      assert Vacant(r, x.s);
      CasSlots(r, r', x'.items, x.s);
    }
  }

  /** One producer step keeps memory and its own part. */
  lemma ProducerStepOk(r: Ring, x: Producer, op: ProducerOp)
    requires Base(r) && ProducerOk(r, x) && ProducerEnabled(r, x, op)
    ensures Base(ProducerEffect(r, x, op)) && ProducerOk(ProducerEffect(r, x, op), ProducerMove(r, x, op))
  {
    match op
    case Claim(items) => ClaimBase(r, items); ClaimOwn(r, x, op);
    case CasOk => ClaimBase(r, [x.item]); ClaimOwn(r, x, op);
    case WriteWord => WriteBase(r, x); WriteOwn(r, x);
    case CommitOne => CommitBase(r, x); CommitOwn(r, x);
    case _ => LocalMove(r, x, op);
  }

  lemma ProducerStepGrows(r: Ring, x: Producer, op: ProducerOp)
    requires Base(r) && ProducerOk(r, x) && ProducerEnabled(r, x, op)
    ensures forall u: nat :: Open(ProducerMove(r, x, op), u) ==> Open(x, u) || u >= |r.log|
    ensures Grows(r, ProducerEffect(r, x, op))
  {
    if op.Claim? || op.CasOk? { ClaimOwn(r, x, op); } else { LocalShape(r, x, op); }
  }

  lemma OtherProducerOk(r: Ring, x: Producer, op: ProducerOp, y: Producer)
    requires Base(r) && ProducerOk(r, x) && ProducerOk(r, y) && Apart(x, y) && ProducerEnabled(r, x, op)
    ensures ProducerOk(ProducerEffect(r, x, op), y)
  {
    match op
    case Claim(items) => ClaimOthers(r, items, y);
    case CasOk => ClaimOthers(r, [x.item], y);
    case WriteWord => WriteOthers(r, x, y);
    case CommitOne => CommitOthers(r, x, y);
    case _ =>
  }

  lemma ConsumerKept(r: Ring, r': Ring, y: Consumer)
    requires Base(r) && ConsumerOk(r, y) && Grows(r, r') && r'.freed == r.freed && r.done <= r'.done && r'.readSeq == r.readSeq
    ensures ConsumerOk(r', y)
  {
    if y.Copy? && y.seen && r.readSeq == y.s { assert r'.log[..|r.log|][y.s] == r.log[y.s]; }
  }

  lemma ProducerStepKeeps(m: System, p: nat, op: ProducerOp, m': System)
    requires Inv(m) && Next(m, ByProducer(p, op), m')
    ensures Inv(m')
  {
    var r, x := m.ring, m.producers[p];
    ProducerStepOk(r, x, op);
    ProducerStepGrows(r, x, op);
    forall q | 0 <= q < |m'.producers| ensures ProducerOk(m'.ring, m'.producers[q]) {
      if q != p {
        assert Apart(x, m.producers[q]);
        OtherProducerOk(r, x, op, m.producers[q]);
      }
    }
    forall a, b | 0 <= a < |m'.producers| && 0 <= b < |m'.producers| && a != b
      ensures Apart(m'.producers[a], m'.producers[b])
    {
      assert Apart(m.producers[a], m.producers[b]);
      assert Shape(r, m.producers[a]) && Shape(r, m.producers[b]);
    }
    forall c | 0 <= c < |m'.consumers| ensures ConsumerOk(m'.ring, m'.consumers[c]) {
      ConsumerKept(r, m'.ring, m.consumers[c]);
    }
  }

  // ---- consumers ------------------------------------------------------------------------------

  lemma ProducerKept(r: Ring, r': Ring, x: Producer)
    requires ProducerOk(r, x) && Grows(r, r') && r'.log == r.log && r'.done == r.done && r.freed <= r'.freed
    requires forall i :: 0 <= i < |r.slots| ==> r'.slots[i].words == r.slots[i].words
    ensures ProducerOk(r', x)
  {
    ShapeGrows(r, r', x);
    forall u: nat | Vacant(r, u) ensures Vacant(r', u) {
      assert forall w: nat :: Stored(r', w) ==> Stored(r, w);
    }
    forall u: nat | MayWrite(x, u) ensures WordsOk(r', u, Written(r', x, u)) {
      assert WordsOk(r, u, Written(r, x, u));
    }
  }

  lemma WasteBase(r: Ring, y: Consumer)
    requires Base(r) && ConsumerOk(r, y) && ConsumerEnabled(r, y, WasteOne)
    ensures Base(ConsumerEffect(r, 0, y, WasteOne))
  {
    var r' := ConsumerEffect(r, 0, y, WasteOne);
    assert Stored(r, y.w) && Holds(r, y.w);
    forall u: nat | Stored(r', u) ensures Holds(r', u) { assert Stored(r, u) && Holds(r, u); }
    forall i | 0 <= i < |r'.slots| && r'.slots[i].tag.Some?
      ensures Stored(r', r'.slots[i].tag.value) && r'.slots[i].tag.value % |r'.slots| == i
    {
      assert Stored(r, r.slots[i].tag.value);
    }
    assert forall i :: 0 <= i < |r.handed| ==> ValueOk(r, r.handed[i]) ==> ValueOk(r', r.handed[i]);
  }

  lemma CursorBase(r: Ring, c: nat, y: Consumer, cop: ConsumerOp)
    requires Base(r) && ConsumerOk(r, y) && ConsumerEnabled(r, y, cop) && (cop.PeekCas? || cop.TakeCas?)
    ensures Base(ConsumerEffect(r, c, y, cop))
  {
    var r' := ConsumerEffect(r, c, y, cop);
    var last := r'.handed[|r.handed|];
    assert r'.handed[..|r.handed|] == r.handed;
    if last.e > last.b { assert last.e - 1 in r.done; }
    forall u: nat | Stored(r', u) ensures Holds(r', u) { assert Stored(r, u) && Holds(r, u); }
    assert forall i :: 0 <= i < |r.slots| && r.slots[i].tag.Some? ==> Stored(r, r.slots[i].tag.value);
    forall i | 0 <= i < |r'.handed| ensures ValueOk(r', r'.handed[i]) {
      if i < |r.handed| { assert ValueOk(r, r.handed[i]); }
    }
  }

  lemma ConsumerOwn(r: Ring, c: nat, y: Consumer, cop: ConsumerOp)
    requires Base(r) && ConsumerOk(r, y) && ConsumerEnabled(r, y, cop)
    ensures ConsumerOk(ConsumerEffect(r, c, y, cop), ConsumerMove(r, y, cop))
  {
    match cop
    case PeekMore => assert Stored(r, y.e);
    case TakeSee => assert Stored(r, y.s);
    case CopyWord =>
      if r.readSeq == y.s {
        assert Stored(r, y.s) && Holds(r, y.s);
        assert y.copied + [r.log[y.s][|y.copied|]] == r.log[y.s][..|y.copied| + 1];
      }
    case _ =>
  }

  lemma OtherConsumerOk(r: Ring, c: nat, y: Consumer, cop: ConsumerOp, z: Consumer)
    requires Base(r) && ConsumerOk(r, y) && ConsumerOk(r, z) && ConsumerEnabled(r, y, cop) && Disjoint(y, z)
    ensures ConsumerOk(ConsumerEffect(r, c, y, cop), z)
  {
    if cop.WasteOne? { assert Owns(y, y.w); }
  }

  lemma MoveApart(r: Ring, c: nat, y: Consumer, cop: ConsumerOp, z: Consumer)
    requires ConsumerOk(r, y) && ConsumerOk(r, z) && ConsumerEnabled(r, y, cop) && Disjoint(y, z)
    ensures Disjoint(ConsumerMove(r, y, cop), z) && Disjoint(z, ConsumerMove(r, y, cop))
  {
    forall u: nat | Owns(ConsumerMove(r, y, cop), u) ensures !Owns(z, u) {
      if !cop.PeekCas? && !cop.TakeCas? { assert Owns(y, u); }
    }
  }

  lemma ConsumerBase(r: Ring, c: nat, y: Consumer, cop: ConsumerOp)
    requires Base(r) && ConsumerOk(r, y) && ConsumerEnabled(r, y, cop)
    ensures Base(ConsumerEffect(r, c, y, cop))
  {
    match cop
    case WasteOne => WasteBase(r, y);
    case PeekCas => CursorBase(r, c, y, cop);
    case TakeCas => CursorBase(r, c, y, cop);
    case _ =>
  }

  lemma ConsumerStepKeeps(m: System, c: nat, cop: ConsumerOp, m': System)
    requires Inv(m) && Next(m, ByConsumer(c, cop), m')
    ensures Inv(m')
  {
    var r, y := m.ring, m.consumers[c];
    ConsumerBase(r, c, y, cop);
    forall p | 0 <= p < |m.producers| ensures ProducerOk(m'.ring, m.producers[p]) {
      ProducerKept(r, m'.ring, m.producers[p]);
    }
    forall d | 0 <= d < |m'.consumers| ensures ConsumerOk(m'.ring, m'.consumers[d]) {
      ConsumerOwn(r, c, y, cop);
      if d != c {
        assert Disjoint(y, m.consumers[d]);
        OtherConsumerOk(r, c, y, cop, m.consumers[d]);
      }
    }
    forall a, b | 0 <= a < |m'.consumers| && 0 <= b < |m'.consumers| && a != b
      ensures Disjoint(m'.consumers[a], m'.consumers[b])
    {
      assert Disjoint(m.consumers[a], m.consumers[b]) && Disjoint(m.consumers[b], m.consumers[a]);
      if a == c { MoveApart(r, c, y, cop, m.consumers[b]); }
      if b == c { MoveApart(r, c, y, cop, m.consumers[a]); }
    }
  }

  lemma StepKeeps(m: System, st: Step, m': System)
    requires Inv(m) && Next(m, st, m')
    ensures Inv(m')
  {
    match st
    case ByProducer(p, op) => ProducerStepKeeps(m, p, op, m');
    case ByConsumer(c, cop) => ConsumerStepKeeps(m, c, cop, m');
  }

  lemma InitialIsSafe(m: System)
    requires Initial(m)
    ensures Inv(m)
  {
  }

  lemma RunStepKeeps(ms: seq<System>, sts: seq<Step>, i: nat)
    requires Run(ms, sts) && i < |sts| && Inv(ms[i])
    ensures Inv(ms[i + 1])
  {
    StepKeeps(ms[i], sts[i], ms[i + 1]);
  }

  lemma {:induction false} Reachable(ms: seq<System>, sts: seq<Step>, i: nat)
    requires Run(ms, sts) && i < |ms|
    ensures Inv(ms[i])
  {
    if i == 0 {
      InitialIsSafe(ms[0]);
    } else {
      Reachable(ms, sts, i - 1);
      RunStepKeeps(ms, sts, i - 1);
    }
  }

  // ---- what a run guarantees ------------------------------------------------------------------

  /** How many of the ranges handed out contain `u`. */
  function Takers(h: seq<Handed>, u: nat): nat
  {
    if h == [] then 0 else Takers(h[..|h| - 1], u) + if h[|h| - 1].b <= u < h[|h| - 1].e then 1 else 0
  }

  lemma {:induction false} ChainCoversOnce(h: seq<Handed>, upto: nat, u: nat)
    requires Chained(h, upto)
    ensures Takers(h, u) == if u < upto then 1 else 0
    decreases |h|
  {
    if h != [] { ChainCoversOnce(h[..|h| - 1], h[|h| - 1].b, u); }
  }

  /** Each item below the read cursor went to exactly one consumer, and no other item to any. */
  lemma EachItemToOneConsumer(ms: seq<System>, sts: seq<Step>, i: nat, u: nat)
    requires Run(ms, sts) && i < |ms|
    ensures Takers(ms[i].ring.handed, u) == if u < ms[i].ring.readSeq then 1 else 0
    ensures ms[i].ring.readSeq <= |ms[i].ring.log|
    ensures u < ms[i].ring.readSeq ==> u in ms[i].ring.done
  {
    Reachable(ms, sts, i);
    ChainCoversOnce(ms[i].ring.handed, ms[i].ring.readSeq, u);
  }

  /** What a consumer holds is in its slot, whole, until it gives the slot back; and nobody else holds it. */
  lemma HeldSlotIsIntact(ms: seq<System>, sts: seq<Step>, i: nat, c: nat, u: nat)
    requires Run(ms, sts) && i < |ms| && c < |ms[i].consumers| && Owns(ms[i].consumers[c], u)
    ensures |ms[i].ring.slots| > 0 && u < |ms[i].ring.log|
    ensures ms[i].ring.slots[u % |ms[i].ring.slots|] == Slot(Some(u), ms[i].ring.log[u])
    ensures forall d :: 0 <= d < |ms[i].consumers| && d != c ==> !Owns(ms[i].consumers[d], u)
  {
    Reachable(ms, sts, i);
    assert ConsumerOk(ms[i].ring, ms[i].consumers[c]) && Stored(ms[i].ring, u) && Holds(ms[i].ring, u);
    forall d | 0 <= d < |ms[i].consumers| && d != c ensures !Owns(ms[i].consumers[d], u) {
      assert Disjoint(ms[i].consumers[c], ms[i].consumers[d]);
    }
  }

  /** A `take` whose compare-and-swap succeeded returned the item put there, though it copied first. */
  lemma TakenValueIsWhole(ms: seq<System>, sts: seq<Step>, i: nat, k: nat)
    requires Run(ms, sts) && i < |ms| && k < |ms[i].ring.handed| && ms[i].ring.handed[k].value.Some?
    ensures ms[i].ring.handed[k].b < |ms[i].ring.log|
    ensures ms[i].ring.handed[k].value == Some(ms[i].ring.log[ms[i].ring.handed[k].b])
    ensures ms[i].ring.handed[k].e == ms[i].ring.handed[k].b + 1
  {
    Reachable(ms, sts, i);
    assert ValueOk(ms[i].ring, ms[i].ring.handed[k]);
  }

  /** A producer about to write a word has that slot to itself: no stored item, no second writer. */
  lemma WriterIsAlone(ms: seq<System>, sts: seq<Step>, i: nat, p: nat, q: nat)
    requires Run(ms, sts) && i < |ms| && p < |ms[i].producers| && q < |ms[i].producers| && p != q
    requires ms[i].producers[p].Writing? && ms[i].producers[p].k < |ms[i].producers[p].items|
    ensures Ready(ms[i].ring, ms[i].producers[p].s + ms[i].producers[p].k)
    ensures ms[i].producers[q].Writing? && ms[i].producers[q].k < |ms[i].producers[q].items| ==>
              (ms[i].producers[p].s + ms[i].producers[p].k) % |ms[i].ring.slots|
              != (ms[i].producers[q].s + ms[i].producers[q].k) % |ms[i].ring.slots|
  {
    Reachable(ms, sts, i);
    var r, x, y := ms[i].ring, ms[i].producers[p], ms[i].producers[q];
    InWindow(r, x, x.s + x.k);
    VacantIsReady(r, x.s + x.k);
    if y.Writing? && y.k < |y.items| {
      InWindow(r, y, y.s + y.k);
      assert Apart(x, y) && Open(x, x.s + x.k) && Open(y, y.s + y.k);
      WindowSlots(r, x.s + x.k, y.s + y.k);
    }
  }

  /** Once nothing is held or half done, a fully read ring is empty again: every slot may be written over. */
  lemma QuietRingIsEmpty(ms: seq<System>, sts: seq<Step>, i: nat)
    requires Run(ms, sts) && i < |ms| && ms[i].ring.readSeq == |ms[i].ring.log|
    requires forall u :: 0 <= u < ms[i].ring.readSeq ==> u in ms[i].ring.freed
    ensures forall j :: 0 <= j < |ms[i].ring.slots| ==> ms[i].ring.slots[j].tag == None
  {
    Reachable(ms, sts, i);
    forall j | 0 <= j < |ms[i].ring.slots| ensures ms[i].ring.slots[j].tag == None {
      assert ms[i].ring.slots[j].tag.Some? ==> Stored(ms[i].ring, ms[i].ring.slots[j].tag.value);
    }
  }
}
