/** Safety of the broadcast ring, exactly when it holds. */
module BroadcastProofs {
  import opened Common
  import opened BroadcastRing

  // ---- the invariant --------------------------------------------------------------------------

  /** The claimed sequences a producer has not committed yet: [OpenLo, OpenHi). */
  function OpenLo(x: Producer): nat
  {
    match x
    case Scan(_, s, claimed, _, _, _, _) => if claimed then s else 0
    case Writing(_, s, _, _) => s
    case Committing(_, s, k) => s + k
    case _ => 0
  }

  function OpenHi(x: Producer): nat
  {
    match x
    case Scan(items, s, claimed, _, _, _, _) => if claimed then s + |items| else 0
    case Writing(items, s, _, _) => s + |items|
    case Committing(items, s, _) => s + |items|
    case _ => 0
  }

  predicate Open(x: Producer, u: nat) { OpenLo(x) <= u < OpenHi(x) }

  /** The producer has been let into its slots. */
  predicate Granted(x: Producer) { x.Writing? || x.Committing? }

  predicate MayWrite(x: Producer, u: nat) { Granted(x) && Open(x, u) }

  predicate MayRead(y: Consumer, u: nat) { y.cursor.Live? && u >= y.cursor.pos }

  /** No live consumer is a full ring behind the end of the range. */
  ghost predicate Clear(r: Ring, upto: nat)
  {
    forall c :: 0 <= c < |r.consumers| && r.consumers[c].cursor.Live? ==> upto <= r.cap + r.consumers[c].cursor.pos
  }

  /** The step lets producer `x` into its slots. */
  predicate Admits(r: Ring, x: Producer, st: Step)
  {
    match st
    case Decide(_) => x.Scan? && x.claimed && x.best < |r.consumers| && Fits(r.cap, x.s, |x.items|, r.consumers[x.best].cursor)
    case CasOk(_) => x.Cas?
    case _ => false
  }

  /** A producer is let in only when every live consumer has left its slots. */
  ghost predicate ClearGrant(r: Ring, st: Step)
  {
    (ProducerStep(st) && st.p < |r.producers| && Admits(r, r.producers[st.p], st)) ==>
      Clear(r, r.producers[st.p].s + |r.producers[st.p].items|)
  }

  ghost predicate ClearRun(rs: seq<Ring>, sts: seq<Step>)
    requires |rs| == |sts| + 1
  {
    forall i :: 0 <= i < |sts| ==> ClearGrant(rs[i], sts[i])
  }

  ghost predicate PayloadOk(r: Ring, u: nat)
  {
    |r.slots| > 0 && u < |r.log| && r.slots[u % |r.slots|].payload == Whole(r.log[u])
  }

  /** The slot of `u` holds its committed entry. */
  ghost predicate Holds(r: Ring, u: nat)
  {
    |r.slots| > 0 && u < |r.log| && r.slots[u % |r.slots|] == Slot(Some(u), Whole(r.log[u]))
  }

  ghost predicate ProducerOk(r: Ring, x: Producer)
  {
    && (x != Idle ==> 1 <= |x.items| <= r.cap)
    && (x.Writing? || x.Committing? ==> x.k <= |x.items| && Clear(r, x.s + |x.items|))
    && OpenHi(x) <= |r.log|
    && (Granted(x) || (x.Scan? && x.claimed) ==>
          x.s + |x.items| <= |r.log| && r.log[x.s..x.s + |x.items|] == x.items)
    && (forall u :: Open(x, u) ==> u !in r.done)
    && (x.Writing? ==> forall u :: x.s <= u < x.s + x.k ==> PayloadOk(r, u))
    && (x.Committing? ==> forall u :: x.s + x.k <= u < x.s + |x.items| ==> PayloadOk(r, u))
  }

  /** Two producers never hold the same sequence. */
  ghost predicate Apart(x: Producer, y: Producer) { forall u :: Open(x, u) ==> !Open(y, u) }

  ghost predicate ProducersApart(ps: seq<Producer>)
  {
    forall p, q :: 0 <= p < |ps| && 0 <= q < |ps| && p != q ==> Apart(ps[p], ps[q])
  }

  ghost predicate ConsumerOk(r: Ring, y: Consumer)
  {
    y.cursor.Live? ==>
      && y.start <= y.cursor.pos <= y.next <= y.end <= |r.log|
      && (forall u :: y.start <= u < y.end ==> u in r.done)
      && (forall u :: u in r.done ==> u < r.cap + y.cursor.pos)
      && (forall u :: u in r.done && u >= y.cursor.pos ==> Holds(r, u))
      && y.got == r.log[y.start..y.next]
  }

  ghost predicate Base(anchor: nat, r: Ring)
  {
    && r.cap > 0 && |r.slots| == r.cap
    && anchor < |r.consumers| && r.consumers[anchor].cursor.Live? && r.consumers[anchor].start == 0
    && (forall u :: u in r.done ==> u < |r.log|)
    && (forall i :: 0 <= i < |r.slots| && r.slots[i].tag.Some? ==>
          r.slots[i].tag.value in r.done && r.slots[i].tag.value % |r.slots| == i)
  }

  ghost predicate Inv(anchor: nat, r: Ring)
  {
    && Base(anchor, r)
    && (forall c :: 0 <= c < |r.consumers| ==> ConsumerOk(r, r.consumers[c]))
    && (forall p :: 0 <= p < |r.producers| ==> ProducerOk(r, r.producers[p]))
    && ProducersApart(r.producers)
  }

  // ---- slots ----------------------------------------------------------------------------------

  /**
   * A granted, uncommitted sequence shares its slot with nothing any live consumer may still read and
   * with no other granted, uncommitted sequence.
   */
  lemma SlotIsFree(anchor: nat, r: Ring, x: Producer, u: nat, w: nat)
    requires Base(anchor, r) && ConsumerOk(r, r.consumers[anchor]) && ProducerOk(r, x)
    requires MayWrite(x, u) && w != u
    requires || (w in r.done && exists c :: 0 <= c < |r.consumers| && MayRead(r.consumers[c], w))
             || (exists y :: ProducerOk(r, y) && MayWrite(y, w))
    ensures w % r.cap != u % r.cap
  {
    var a := r.consumers[anchor].cursor.pos;
    assert u >= a;
    if w % r.cap == u % r.cap {
      if w in r.done {
        var c :| 0 <= c < |r.consumers| && MayRead(r.consumers[c], w);
        assert u < r.cap + r.consumers[c].cursor.pos;
        SameSlot(w, u, r.cap);
      } else {
        var y :| ProducerOk(r, y) && MayWrite(y, w);
        assert w >= a;
        SameSlot(w, u, r.cap);
      }
    }
  }

  // ---- producer steps -------------------------------------------------------------------------

  /** What a step may do to memory without anyone else noticing. */
  ghost predicate Quiet(r: Ring, r': Ring)
  {
    && r'.cap == r.cap && r'.consumers == r.consumers
    && |r'.slots| == |r.slots| && |r.log| <= |r'.log| && r'.log[..|r.log|] == r.log
    && r.done <= r'.done
  }

  /** Others keep their part if what they own stays uncommitted and what they wrote stays written. */
  lemma OtherProducerKeeps(r: Ring, r': Ring, x: Producer)
    requires ProducerOk(r, x) && Quiet(r, r')
    requires forall u: nat :: Open(x, u) ==> u !in r'.done
    requires forall u: nat :: MayWrite(x, u) && PayloadOk(r, u) ==> PayloadOk(r', u)
    ensures ProducerOk(r', x)
  {
    if Granted(x) || (x.Scan? && x.claimed) { PrefixSlice(r.log, r'.log, x.s, x.s + |x.items|); }
  }

  /** Consumers keep theirs if committed entries they may still read stay as they are. */
  lemma ConsumerKeeps(r: Ring, r': Ring, y: Consumer)
    requires ConsumerOk(r, y) && Quiet(r, r') && |r.slots| > 0
    requires forall u :: u in r.done ==> u < |r.log|
    requires y.cursor.Live? ==> forall u :: u in r'.done ==> u < r.cap + y.cursor.pos
    requires y.cursor.Live? ==> forall u :: u in r'.done && u >= y.cursor.pos ==> Holds(r', u)
    ensures ConsumerOk(r', y)
  {
    if y.cursor.Live? { PrefixSlice(r.log, r'.log, y.start, y.next); }
  }

  predicate MemoryStep(st: Step) { st.Claim? || st.CasOk? || st.BeginWrite? || st.EndWrite? || st.CommitOne? }

  /** The producer's own part after a step that leaves memory alone. */
  lemma LocalMoveOk(r: Ring, x: Producer, st: Step)
    requires ProducerOk(r, x) && ProducerStep(st) && EnabledFor(r, x, st)
    requires |r.slots| > 0 && |r.consumers| > 0 && !MemoryStep(st)
    requires Admits(r, x, st) ==> Clear(r, x.s + |x.items|)
    ensures ProducerOk(r, Move(r, x, st))
  {
  }

  /** Such a step claims nothing. */
  lemma LocalMoveOpens(r: Ring, x: Producer, st: Step)
    requires ProducerStep(st) && EnabledFor(r, x, st) && !MemoryStep(st)
    ensures forall u: nat :: Open(Move(r, x, st), u) ==> Open(x, u)
  {
  }

  /** Assembles the invariant after a step of producer `p`. */
  lemma ProducerStepKeeps(anchor: nat, r: Ring, p: nat, st: Step, r': Ring)
    requires Inv(anchor, r) && Next(anchor, r, st, r') && ProducerStep(st) && st.p == p && Quiet(r, r')
    requires Base(anchor, r') && ProducerOk(r', r'.producers[p])
    requires forall u: nat :: u in r'.done ==> u in r.done || Open(r.producers[p], u)
    requires forall u: nat :: Open(r'.producers[p], u) ==> Open(r.producers[p], u) || u >= |r.log|
    requires forall q, u: nat | 0 <= q < |r.producers| && q != p && MayWrite(r.producers[q], u) && PayloadOk(r, u) ::
      PayloadOk(r', u)
    requires forall c, u: nat | 0 <= c < |r.consumers| && MayRead(r.consumers[c], u) && u in r'.done :: Holds(r', u)
    requires forall c, u: nat | 0 <= c < |r.consumers| && r.consumers[c].cursor.Live? && u in r'.done ::
      u < r.cap + r.consumers[c].cursor.pos
    ensures Inv(anchor, r')
  {
    forall q | 0 <= q < |r'.producers| ensures ProducerOk(r', r'.producers[q]) {
      if q != p {
        assert ProducerOk(r, r.producers[q]) && Apart(r.producers[p], r.producers[q]);
        OtherProducerKeeps(r, r', r.producers[q]);
      }
    }
    forall c | 0 <= c < |r'.consumers| ensures ConsumerOk(r', r'.consumers[c]) {
      ConsumerKeeps(r, r', r.consumers[c]);
    }
    forall a, b | 0 <= a < |r'.producers| && 0 <= b < |r'.producers| && a != b
      ensures Apart(r'.producers[a], r'.producers[b])
    {
      assert Apart(r.producers[a], r.producers[b]);
      assert OpenHi(r.producers[a]) <= |r.log| && OpenHi(r.producers[b]) <= |r.log|;
    }
  }

  lemma LocalStepKeeps(anchor: nat, r: Ring, st: Step, r': Ring)
    requires Inv(anchor, r) && Next(anchor, r, st, r') && ProducerStep(st) && ClearGrant(r, st) && !MemoryStep(st)
    ensures Inv(anchor, r')
  {
    var x := r.producers[st.p];
    assert ProducerOk(r, x);
    LocalMoveOk(r, x, st);
    LocalMoveOpens(r, x, st);
    SameMemory(r, r', r'.producers[st.p]);
    forall c | 0 <= c < |r.consumers| ensures ConsumerOk(r, r.consumers[c]) {}
    ProducerStepKeeps(anchor, r, st.p, st, r');
  }

  /** A producer's part depends on memory and consumers only. */
  lemma SameMemory(r: Ring, r': Ring, x: Producer)
    requires ProducerOk(r, x) && r' == r.(producers := r'.producers)
    ensures ProducerOk(r', x)
  {
    OtherProducerKeeps(r, r', x);
  }

  lemma ClaimKeeps(anchor: nat, r: Ring, st: Step, r': Ring)
    requires Inv(anchor, r) && Next(anchor, r, st, r') && (st.Claim? || st.CasOk?) && ClearGrant(r, st)
    ensures Inv(anchor, r')
  {
    var x, x' := r.producers[st.p], r'.producers[st.p];
    assert ProducerOk(r, x);
    assert r'.log[..|r.log|] == r.log;
    assert r'.log[x'.s..x'.s + |x'.items|] == x'.items;
    ProducerStepKeeps(anchor, r, st.p, st, r');
  }

  /** Writing into a granted slot changes that slot only. */
  lemma WriteKeeps(anchor: nat, r: Ring, st: Step, r': Ring)
    requires Inv(anchor, r) && Next(anchor, r, st, r') && (st.BeginWrite? || st.EndWrite?)
    ensures Inv(anchor, r')
  {
    var p, x := st.p, r.producers[st.p];
    var u := x.s + x.k;
    assert ProducerOk(r, x);
    WriteElsewhere(anchor, r, p, u, r');
    assert x.items[x.k] == r.log[x.s..x.s + |x.items|][x.k];
    ProducerStepKeeps(anchor, r, p, st, r');
  }

  lemma WriteElsewhere(anchor: nat, r: Ring, p: nat, u: nat, r': Ring)
    requires Inv(anchor, r) && p < |r.producers| && r.producers[p].Writing? && Open(r.producers[p], u)
    requires r'.log == r.log && r'.cap == r.cap && |r'.slots| == |r.slots|
    requires forall i :: 0 <= i < |r.slots| && i != u % |r.slots| ==> r'.slots[i] == r.slots[i]
    ensures forall q, w: nat | 0 <= q < |r.producers| && MayWrite(r.producers[q], w) && w != u && PayloadOk(r, w) ::
      PayloadOk(r', w)
    ensures forall c, w: nat | 0 <= c < |r.consumers| && MayRead(r.consumers[c], w) && w in r.done :: Holds(r', w)
  {
    var x := r.producers[p];
    assert ProducerOk(r, x) && ConsumerOk(r, r.consumers[anchor]);
    forall q, w: nat | 0 <= q < |r.producers| && MayWrite(r.producers[q], w) && w != u && PayloadOk(r, w)
      ensures PayloadOk(r', w)
    {
      assert ProducerOk(r, r.producers[q]);
      SlotIsFree(anchor, r, x, u, w);
    }
    forall c, w: nat | 0 <= c < |r.consumers| && MayRead(r.consumers[c], w) && w in r.done
      ensures Holds(r', w)
    {
      assert ConsumerOk(r, r.consumers[c]) && Holds(r, w);
      SlotIsFree(anchor, r, x, u, w);
    }
  }

  /** The committing producer's own part, and the memory it leaves to consumers. */
  lemma CommitOwn(r: Ring, x: Producer, r': Ring)
    requires |r.slots| > 0 && x.Committing? && x.k < |x.items| && ProducerOk(r, x) && 0 < r.cap == |r.slots|
    requires r' == Effect(r, x, CommitOne(0)).(producers := r'.producers)
    ensures ProducerOk(r', Committing(x.items, x.s, x.k + 1)) && Holds(r', x.s + x.k)
  {
    var u := x.s + x.k;
    assert PayloadOk(r, u);
    forall w: nat | PayloadOk(r, w) ensures PayloadOk(r', w) {}
  }

  lemma CommitReads(anchor: nat, r: Ring, x: Producer, r': Ring, y: Consumer, w: nat)
    requires Base(anchor, r) && ConsumerOk(r, r.consumers[anchor]) && ProducerOk(r, x) && ConsumerOk(r, y)
    requires x.Committing? && x.k < |x.items| && y in r.consumers && MayRead(y, w) && w in r.done
    requires r'.log == r.log && r'.slots == Effect(r, x, CommitOne(0)).slots
    ensures Holds(r', w)
  {
    assert Holds(r, w) && MayWrite(x, x.s + x.k);
    SlotIsFree(anchor, r, x, x.s + x.k, w);
  }

  lemma CommitBase(anchor: nat, r: Ring, st: Step, r': Ring)
    requires Inv(anchor, r) && Next(anchor, r, st, r') && st.CommitOne?
    ensures Base(anchor, r')
  {
    var x := r.producers[st.p];
    var u := x.s + x.k;
    assert ProducerOk(r, x) && u < |r.log|;
    forall i | 0 <= i < |r'.slots| && r'.slots[i].tag.Some?
      ensures r'.slots[i].tag.value in r'.done && r'.slots[i].tag.value % |r'.slots| == i
    {
      if i != u % |r.slots| { assert r'.slots[i] == r.slots[i]; }
    }
  }

  lemma CommitKeeps(anchor: nat, r: Ring, st: Step, r': Ring)
    requires Inv(anchor, r) && Next(anchor, r, st, r') && st.CommitOne?
    ensures Inv(anchor, r')
  {
    var p, x := st.p, r.producers[st.p];
    var u := x.s + x.k;
    assert ProducerOk(r, x);
    CommitOwn(r, x, r');
    CommitBase(anchor, r, st, r');
    CommitConsumers(anchor, r, st, r');
    ProducerStepKeeps(anchor, r, p, st, r');
  }

  /** What consumers may still read is held, and none is a ring behind. */
  lemma CommitConsumers(anchor: nat, r: Ring, st: Step, r': Ring)
    requires Inv(anchor, r) && Next(anchor, r, st, r') && st.CommitOne?
    requires Holds(r', r.producers[st.p].s + r.producers[st.p].k)
    ensures forall c, w: nat | 0 <= c < |r.consumers| && MayRead(r.consumers[c], w) && w in r'.done :: Holds(r', w)
    ensures forall c, w: nat | 0 <= c < |r.consumers| && r.consumers[c].cursor.Live? && w in r'.done ::
      w < r.cap + r.consumers[c].cursor.pos
  {
    var x := r.producers[st.p];
    assert ProducerOk(r, x);
    forall c, w: nat | 0 <= c < |r.consumers| && MayRead(r.consumers[c], w) && w in r'.done
      ensures Holds(r', w)
    {
      if w != x.s + x.k {
        assert ConsumerOk(r, r.consumers[c]) && ConsumerOk(r, r.consumers[anchor]);
        CommitReads(anchor, r, x, r', r.consumers[c], w);
      }
    }
    forall c, w: nat | 0 <= c < |r.consumers| && r.consumers[c].cursor.Live? && w in r'.done
      ensures w < r.cap + r.consumers[c].cursor.pos
    {
      assert ConsumerOk(r, r.consumers[c]);
    }
  }

  // ---- consumer steps -------------------------------------------------------------------------

  /** A cursor that only moves up, or joins at the end, disturbs no producer. */
  lemma ConsumersDoNotDisturb(r: Ring, r': Ring, c: nat, x: Producer)
    requires ProducerOk(r, x) && c < |r.consumers|
    requires |r'.consumers| == |r.consumers| && r' == r.(consumers := r.consumers[c := r'.consumers[c]])
    requires var y, z := r.consumers[c].cursor, r'.consumers[c].cursor;
      z.Live? ==> if y.Live? then y.pos <= z.pos else z.pos == |r.log|
    ensures ProducerOk(r', x)
  {
    assert forall u: nat :: PayloadOk(r, u) ==> PayloadOk(r', u);
  }

  lemma ConsumerStepKeeps(anchor: nat, r: Ring, st: Step, r': Ring)
    requires Inv(anchor, r) && Next(anchor, r, st, r') && !ProducerStep(st)
    ensures Inv(anchor, r')
  {
    var c, y, z := st.c, r.consumers[st.c], r'.consumers[st.c];
    assert ConsumerOk(r, y);
    forall q | 0 <= q < |r'.producers| ensures ProducerOk(r', r'.producers[q]) {
      assert ProducerOk(r, r.producers[q]);
      ConsumersDoNotDisturb(r, r', c, r.producers[q]);
    }
    ConsumerMoveOk(anchor, r, st, r');
    forall d | 0 <= d < |r'.consumers| ensures ConsumerOk(r', r'.consumers[d]) {
      if d != c { OtherConsumerKeeps(r, r', r.consumers[d]); }
    }
  }

  lemma OtherConsumerKeeps(r: Ring, r': Ring, y: Consumer)
    requires ConsumerOk(r, y) && r' == r.(consumers := r'.consumers)
    ensures ConsumerOk(r', y)
  {
    assert forall u: nat :: Holds(r, u) ==> Holds(r', u);
  }

  /** A tagged slot is a committed one. */
  lemma PeekOk(anchor: nat, r: Ring, y: Consumer)
    requires Base(anchor, r) && ConsumerOk(r, y) && y.cursor.Live? && r.slots[y.end % |r.slots|].tag == Some(y.end)
    ensures ConsumerOk(r, y.(end := y.end + 1))
  {
    assert y.end in r.done;
  }

  /** What a consumer reads is what was claimed for that sequence. */
  lemma ReadOk(r: Ring, y: Consumer)
    requires ConsumerOk(r, y) && y.cursor.Live? && y.next < y.end && |r.slots| > 0
    ensures r.slots[y.next % |r.slots|].payload == Whole(r.log[y.next])
    ensures ConsumerOk(r, y.(next := y.next + 1, got := y.got + [r.log[y.next]]))
  {
    assert Holds(r, y.next);
    assert r.log[y.start..y.next] + [r.log[y.next]] == r.log[y.start..y.next + 1];
  }

  lemma ConsumerMoveOk(anchor: nat, r: Ring, st: Step, r': Ring)
    requires Inv(anchor, r) && Next(anchor, r, st, r') && !ProducerStep(st)
    ensures ConsumerOk(r', r'.consumers[st.c])
  {
    var y, z := r.consumers[st.c], r'.consumers[st.c];
    assert ConsumerOk(r, y);
    match st
    case PeekOne(_) => PeekOk(anchor, r, y);
    case Read(_) => ReadOk(r, y);
    case Waste(_, _) =>
    case MarkDead(_) =>
    case Join(_) => assert r.log[|r.log|..|r.log|] == [];
    OtherConsumerKeeps(r, r', z);
  }

  lemma StepKeeps(anchor: nat, r: Ring, st: Step, r': Ring)
    requires Inv(anchor, r) && Next(anchor, r, st, r') && ClearGrant(r, st)
    ensures Inv(anchor, r')
  {
    if !ProducerStep(st) { ConsumerStepKeeps(anchor, r, st, r'); }
    else if st.Claim? || st.CasOk? { ClaimKeeps(anchor, r, st, r'); }
    else if st.BeginWrite? || st.EndWrite? { WriteKeeps(anchor, r, st, r'); }
    else if st.CommitOne? { CommitKeeps(anchor, r, st, r'); }
    else { LocalStepKeeps(anchor, r, st, r'); }
  }

  lemma {:induction false} Reachable(anchor: nat, rs: seq<Ring>, sts: seq<Step>, i: nat)
    requires Run(anchor, rs, sts) && ClearRun(rs, sts) && i < |rs|
    ensures Inv(anchor, rs[i])
  {
    if i > 0 {
      Reachable(anchor, rs, sts, i - 1);
      StepKeeps(anchor, rs[i - 1], sts[i - 1], rs[i]);
    }
  }

  // ---- results --------------------------------------------------------------------------------

  /** The slots a producer has been let into and has not committed. */
  ghost predicate WritesTo(r: Ring, p: nat, slot: nat)
    requires r.cap > 0
  {
    p < |r.producers| && exists u: nat :: MayWrite(r.producers[p], u) && u % r.cap == slot
  }

  /** No slot has two writers, and none is written while a live consumer has not wasted what it held. */
  ghost predicate Exclusive(r: Ring)
  {
    && r.cap > 0
    && (forall p: nat, q: nat, slot: nat :: p != q && WritesTo(r, p, slot) ==> !WritesTo(r, q, slot))
    && (forall p: nat, c: nat, u: nat :: p < |r.producers| && MayWrite(r.producers[p], u) && c < |r.consumers| && r.consumers[c].cursor.Live?
          ==> u < r.cap + r.consumers[c].cursor.pos)
  }

  lemma InvIsExclusive(anchor: nat, r: Ring)
    requires Inv(anchor, r)
    ensures Exclusive(r)
  {
    forall p: nat, q: nat, slot: nat | p != q && WritesTo(r, p, slot) ensures !WritesTo(r, q, slot) {
      if WritesTo(r, q, slot) {
        var u: nat :| MayWrite(r.producers[p], u) && u % r.cap == slot;
        var w: nat :| MayWrite(r.producers[q], w) && w % r.cap == slot;
        assert Apart(r.producers[p], r.producers[q]);
        assert ProducerOk(r, r.producers[p]) && ProducerOk(r, r.producers[q]) && ConsumerOk(r, r.consumers[anchor]);
        SlotIsFree(anchor, r, r.producers[p], u, w);
      }
    }
    forall p: nat, c: nat, u: nat | p < |r.producers| && MayWrite(r.producers[p], u) && c < |r.consumers| && r.consumers[c].cursor.Live?
      ensures u < r.cap + r.consumers[c].cursor.pos
    {
      assert ProducerOk(r, r.producers[p]);
    }
  }

  /**
   * In such a run slots are exclusive at any moment, and every live consumer has read every sequence from its
   * start on, once and in order, with the payload claimed for it.
   */
  lemma ClearRunsAreSafe(anchor: nat, rs: seq<Ring>, sts: seq<Step>, i: nat)
    requires Run(anchor, rs, sts) && ClearRun(rs, sts) && i < |rs|
    ensures Exclusive(rs[i])
    ensures forall c :: 0 <= c < |rs[i].consumers| && rs[i].consumers[c].cursor.Live? ==>
      var y := rs[i].consumers[c]; y.start <= y.next <= |rs[i].log| && y.got == rs[i].log[y.start..y.next]
  {
    Reachable(anchor, rs, sts, i);
    InvIsExclusive(anchor, rs[i]);
    forall c | 0 <= c < |rs[i].consumers| && rs[i].consumers[c].cursor.Live?
      ensures var y := rs[i].consumers[c]; y.start <= y.next <= |rs[i].log| && y.got == rs[i].log[y.start..y.next]
    {
      assert ConsumerOk(rs[i], rs[i].consumers[c]);
    }
  }

  lemma {:induction false} NobodyPutsNothing(anchor: nat, rs: seq<Ring>, sts: seq<Step>, i: nat, p: nat)
    requires Run(anchor, rs, sts) && i < |rs| && p < |rs[i].producers|
    ensures rs[i].producers[p] != Idle ==> |rs[i].producers[p].items| >= 1
  {
    if i > 0 {
      assert Next(anchor, rs[i - 1], sts[i - 1], rs[i]);
      NobodyPutsNothing(anchor, rs, sts, i - 1, p);
    }
  }

  /** Exactly: slots are exclusive at every moment of a run if and only if each producer let in found its slots left. */
  lemma SafeIffGrantsAreClear(anchor: nat, rs: seq<Ring>, sts: seq<Step>)
    requires Run(anchor, rs, sts)
    ensures (forall i :: 0 <= i < |rs| ==> Exclusive(rs[i])) <==> ClearRun(rs, sts)
  {
    if ClearRun(rs, sts) {
      forall i | 0 <= i < |rs| ensures Exclusive(rs[i]) { ClearRunsAreSafe(anchor, rs, sts, i); }
    }
    if forall i :: 0 <= i < |rs| ==> Exclusive(rs[i]) {
      forall i | 0 <= i < |sts| ensures ClearGrant(rs[i], sts[i]) {
        assert Next(anchor, rs[i], sts[i], rs[i + 1]) && Exclusive(rs[i + 1]);
        if ProducerStep(sts[i]) && Admits(rs[i], rs[i].producers[sts[i].p], sts[i]) {
          NobodyPutsNothing(anchor, rs, sts, i, sts[i].p);
          ExclusiveAfterGrant(rs[i], rs[i].producers[sts[i].p], sts[i].p, rs[i + 1]);
        }
      }
    }
  }

  lemma ExclusiveAfterGrant(r: Ring, x: Producer, p: nat, r': Ring)
    requires x != Idle && |x.items| >= 1 && p < |r'.producers| && r'.producers[p] == Writing(x.items, x.s, 0, false)
    requires r'.consumers == r.consumers && r'.cap == r.cap && Exclusive(r')
    ensures Clear(r, x.s + |x.items|)
  {
    assert MayWrite(r'.producers[p], x.s + |x.items| - 1);
  }
}
