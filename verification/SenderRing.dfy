/**
 * The sender on top of its ring: the protocol with its producers replaced by the ring's, who claim, wait, write and
 * commit in any interleaving, hmbdc/pattern/MemRingBuffer.hpp, lines 107-377. What they do looks to the protocol like
 * one put after the other, in sequence order.
 */
module SenderRing {
  import opened Common
  import opened Messages
  import opened Receiver
  import opened Sender
  import opened Invariants
  import opened Delivery
  import opened RunBuilding
  import R = BroadcastRing
  import P = BroadcastProofs
  import S = BroadcastScans
  import T = Theorems
  import L = LinkProofs

  // ---- the ring with its two cursors ----------------------------------------------------------

  /** Consumer 0 is the multicast and consumer 1 the backup cursor, which never gets ahead. */
  predicate TwoCursors(r: R.Ring)
  {
    && r.cap > 0 && |r.consumers| == 2 && r.consumers[0].cursor.Live? && r.consumers[1].cursor.Live?
    && r.consumers[1].cursor.pos <= r.consumers[0].cursor.pos
  }

  function First(r: R.Ring): nat requires TwoCursors(r) { r.consumers[0].cursor.pos }

  function Second(r: R.Ring): nat requires TwoCursors(r) { r.consumers[1].cursor.pos }

  /** The producer has claimed its sequences and waits to be let in. */
  predicate Waits(q: R.Producer) { q.Scan? && q.claimed }

  function LowestWaiting(ps: seq<R.Producer>, bound: nat): (f: nat)
    ensures f <= bound && (forall p :: 0 <= p < |ps| && Waits(ps[p]) ==> f <= ps[p].s)
    ensures f == bound || exists p :: 0 <= p < |ps| && Waits(ps[p]) && ps[p].s == f
  {
    if ps == [] then bound
    else
      var f, q := LowestWaiting(ps[..|ps| - 1], bound), ps[|ps| - 1];
      if Waits(q) && q.s < f then q.s else f
  }

  /** Up to here the claims are put, as far as the protocol is concerned: none of them waits to be let in. */
  function Frontier(r: R.Ring): nat { LowestWaiting(r.producers, |r.log|) }

  /** The ring's items stand for entries. */
  function Entries(e: int -> Entry, vs: seq<int>): (r: seq<Entry>)
    ensures |r| == |vs| && forall i :: 0 <= i < |r| ==> r[i] == e(vs[i])
  {
    seq(|vs|, i requires 0 <= i < |vs| => e(vs[i]))
  }

  // ---- the sender on top of it ----------------------------------------------------------------

  /** The ring, and everything else; what `sys` says of the ring is not looked at. */
  datatype Impl = Impl(ring: R.Ring, sys: System)

  datatype ImplStep = ByRing(st: R.Step) | BySystem(step: Step)

  function Blank(cap: nat, blank: Entry): seq<Entry> { seq(cap, _ => blank) }

  function WithLog(y: System, blank: Entry, log: seq<Entry>): System
    requires y.snd.cap > 0
  {
    y.(snd := y.snd.(log := log, slots := Fill(Blank(y.snd.cap, blank), 0, log)))
  }

  function WithCursors(y: System, r: R.Ring): System
    requires TwoCursors(r)
  {
    y.(snd := y.snd.(cap := r.cap, visible := r.consumers[0].end, rs0 := First(r), rs1 := Second(r)))
  }

  /** What the protocol sees: of the ring, the claims that are put, how far the multicast has looked, and the cursors. */
  function Seen(e: int -> Entry, blank: Entry, i: Impl): System
    requires TwoCursors(i.ring)
  {
    WithLog(WithCursors(i.sys, i.ring), blank, Entries(e, i.ring.log[..Frontier(i.ring)]))
  }

  /** A producer's step, or a consumer looking ahead or reading. Producers put messages or whole trains. */
  ghost predicate RingStep(e: int -> Entry, r: R.Ring, st: R.Step, r': R.Ring)
  {
    && (R.ProducerStep(st) || st.PeekOne? || st.Read?) && R.Next(0, r, st, r') && |r'.log| < WIRE_SEQ_MAX
    && (st.Claim? || st.TryClaim? ==> Puttable(Entries(e, st.items)))
  }

  /** The ring's cursors follow the protocol's: each over what it has read. */
  ghost predicate Follows(r: R.Ring, x: Sender, r': R.Ring)
    requires TwoCursors(r)
  {
    && First(r) <= x.rs0 <= r.consumers[0].next && Second(r) <= x.rs1 <= r.consumers[1].next
    && r' == r.(consumers := [r.consumers[0].(cursor := R.Live(x.rs0)), r.consumers[1].(cursor := R.Live(x.rs1))])
  }

  ghost predicate ImplNext(e: int -> Entry, blank: Entry, i: Impl, st: ImplStep, i': Impl)
  {
    && TwoCursors(i.ring)
    && match st
       case ByRing(s) => !i.sys.snd.stopped && RingStep(e, i.ring, s, i'.ring) && i'.sys == i.sys
       case BySystem(s) =>
         !s.StepPut? && !s.StepExpose? && Next(Seen(e, blank, i), s, i'.sys) && Follows(i.ring, i'.sys.snd, i'.ring)
  }

  ghost predicate ImplInitial(blank: Entry, i: Impl)
  {
    && R.Initial(0, i.ring) && TwoCursors(i.ring)
    && exists replay :: i.sys == System(Initial(i.ring.cap, replay, blank), map[])
  }

  ghost predicate ImplRun(e: int -> Entry, blank: Entry, impls: seq<Impl>, sts: seq<ImplStep>)
  {
    && |impls| == |sts| + 1
    && ImplInitial(blank, impls[0])
    && forall i :: 0 <= i < |sts| ==> ImplNext(e, blank, impls[i], sts[i], impls[i + 1])
  }

  /** Every producer let in finds its slots left by both cursors. */
  ghost predicate ClearGrants(impls: seq<Impl>, sts: seq<ImplStep>)
    requires |impls| == |sts| + 1
  {
    forall i :: 0 <= i < |sts| && sts[i].ByRing? ==> P.ClearGrant(impls[i].ring, sts[i].st)
  }

  // ---- what holds of the ring in every run ----------------------------------------------------

  ghost predicate Neat(e: int -> Entry, r: R.Ring, q: R.Producer)
    requires TwoCursors(r)
  {
    && (q != R.Idle ==> 1 <= |q.items| <= r.cap && Puttable(Entries(e, q.items)))
    && (P.Granted(q) ==> q.k <= |q.items|)
    && P.OpenHi(q) <= |r.log| && (forall u :: P.Open(q, u) ==> u !in r.done)
    && (q.Scan? ==> q.best < 2 && (q.held.Some? ==> q.i < 2) && (q.claimed ==> q.s + |q.items| <= |r.log|))
    && (q.Cas? ==> q.s + |q.items| <= r.cap + First(r))
  }

  ghost predicate Tidy(e: int -> Entry, r: R.Ring)
  {
    && TwoCursors(r) && |r.slots| == r.cap && |r.log| < WIRE_SEQ_MAX
    && (forall u :: u in r.done ==> u < |r.log|)
    && (forall i :: 0 <= i < |r.slots| && r.slots[i].tag.Some? ==> r.slots[i].tag.value in r.done)
    && (forall c :: 0 <= c < 2 ==> ConsumerTidy(r, r.consumers[c]))
    && (forall p :: 0 <= p < |r.producers| ==> Neat(e, r, r.producers[p]))
    && P.ProducersApart(r.producers)
  }

  /** A consumer has looked only at what is committed. */
  ghost predicate ConsumerTidy(r: R.Ring, y: R.Consumer)
  {
    y.cursor.Live? && y.cursor.pos <= y.next <= y.end && forall u: nat :: u < y.end ==> u in r.done
  }

  lemma OthersNeat(e: int -> Entry, r: R.Ring, r': R.Ring, q: R.Producer)
    requires TwoCursors(r) && TwoCursors(r') && Neat(e, r, q) && r'.cap == r.cap && |r.log| <= |r'.log| && First(r) <= First(r')
    requires forall u :: P.Open(q, u) ==> u !in r'.done
    ensures Neat(e, r', q)
  {
  }

  lemma ScannerNeat(e: int -> Entry, r: R.Ring, st: R.Step, r': R.Ring)
    requires Tidy(e, r) && RingStep(e, r, st, r') && (st.LoadCandidate? || st.Compare? || st.Decide?)
    ensures TwoCursors(r') && Neat(e, r', r'.producers[st.p])
  {
    assert Neat(e, r, r.producers[st.p]);
  }

  lemma ClaimerNeat(e: int -> Entry, r: R.Ring, st: R.Step, r': R.Ring)
    requires Tidy(e, r) && RingStep(e, r, st, r') && (st.Claim? || st.TryClaim? || st.CasOk? || st.CasFail?)
    ensures TwoCursors(r') && Neat(e, r', r'.producers[st.p])
  {
    assert Neat(e, r, r.producers[st.p]);
  }

  lemma MoverNeat(e: int -> Entry, r: R.Ring, st: R.Step, r': R.Ring)
    requires Tidy(e, r) && RingStep(e, r, st, r') && R.ProducerStep(st)
    ensures TwoCursors(r') && Neat(e, r', r'.producers[st.p])
  {
    if st.LoadCandidate? || st.Compare? || st.Decide? { ScannerNeat(e, r, st, r'); }
    else if st.Claim? || st.TryClaim? || st.CasOk? || st.CasFail? { ClaimerNeat(e, r, st, r'); }
    else { assert Neat(e, r, r.producers[st.p]); }
  }

  /** A step opens nothing that was open before, and commits only what its producer had open. */
  lemma StepOpens(e: int -> Entry, r: R.Ring, st: R.Step, r': R.Ring)
    requires Tidy(e, r) && RingStep(e, r, st, r') && R.ProducerStep(st)
    ensures forall u: nat :: P.Open(r'.producers[st.p], u) ==> P.Open(r.producers[st.p], u) || u >= |r.log|
    ensures forall u: nat :: u in r'.done ==> u in r.done || P.Open(r.producers[st.p], u)
    ensures r.done <= r'.done && r.log <= r'.log && r'.consumers == r.consumers && r'.cap == r.cap && |r'.slots| == |r.slots|
  {
    assert Neat(e, r, r.producers[st.p]);
  }

  lemma TagsAreDone(e: int -> Entry, r: R.Ring, st: R.Step, r': R.Ring)
    requires Tidy(e, r) && RingStep(e, r, st, r') && R.ProducerStep(st)
    ensures forall u :: u in r'.done ==> u < |r'.log|
    ensures forall i :: 0 <= i < |r'.slots| && r'.slots[i].tag.Some? ==> r'.slots[i].tag.value in r'.done
  {
    assert Neat(e, r, r.producers[st.p]);
  }

  lemma ProducerStepTidy(e: int -> Entry, r: R.Ring, st: R.Step, r': R.Ring)
    requires Tidy(e, r) && RingStep(e, r, st, r') && R.ProducerStep(st)
    ensures Tidy(e, r')
  {
    MoverNeat(e, r, st, r');
    StepOpens(e, r, st, r');
    TagsAreDone(e, r, st, r');
    forall c | 0 <= c < 2 ensures ConsumerTidy(r', r'.consumers[c]) { assert ConsumerTidy(r, r.consumers[c]); }
    ApartAfter(e, r, st.p, r');
    forall p | 0 <= p < |r'.producers| ensures Neat(e, r', r'.producers[p]) {
      if p != st.p {
        assert Neat(e, r, r.producers[p]) && P.Apart(r.producers[st.p], r.producers[p]);
        OthersNeat(e, r, r', r.producers[p]);
      }
    }
  }

  lemma ApartAfter(e: int -> Entry, r: R.Ring, p: nat, r': R.Ring)
    requires Tidy(e, r) && p < |r.producers| == |r'.producers|
    requires forall q :: 0 <= q < |r.producers| && q != p ==> r'.producers[q] == r.producers[q]
    requires forall u: nat :: P.Open(r'.producers[p], u) ==> P.Open(r.producers[p], u) || u >= |r.log|
    ensures P.ProducersApart(r'.producers)
  {
    forall a, b | 0 <= a < |r'.producers| && 0 <= b < |r'.producers| && a != b ensures P.Apart(r'.producers[a], r'.producers[b]) {
      assert P.Apart(r.producers[a], r.producers[b]) && Neat(e, r, r.producers[a]) && Neat(e, r, r.producers[b]);
    }
  }

  lemma ConsumerStepTidy(e: int -> Entry, r: R.Ring, st: R.Step, r': R.Ring)
    requires Tidy(e, r) && RingStep(e, r, st, r') && !R.ProducerStep(st)
    ensures Tidy(e, r')
  {
    assert ConsumerTidy(r, r.consumers[st.c]);
    forall c | 0 <= c < 2 ensures ConsumerTidy(r', r'.consumers[c]) { assert ConsumerTidy(r, r.consumers[c]); }
    forall p | 0 <= p < |r'.producers| ensures Neat(e, r', r'.producers[p]) { OthersNeat(e, r, r', r.producers[p]); }
  }

  lemma FollowingTidy(e: int -> Entry, r: R.Ring, x: Sender, r': R.Ring)
    requires Tidy(e, r) && Follows(r, x, r') && TwoCursors(r')
    ensures Tidy(e, r')
  {
    forall c | 0 <= c < 2 ensures ConsumerTidy(r', r'.consumers[c]) { assert ConsumerTidy(r, r.consumers[c]); }
    forall p | 0 <= p < |r'.producers| ensures Neat(e, r', r'.producers[p]) { OthersNeat(e, r, r', r.producers[p]); }
  }

  // ---- claims ---------------------------------------------------------------------------------

  /** The claims in sequence order. */
  datatype Claim = Claim(s: nat, items: seq<int>)

  function End(c: Claim): nat { c.s + |c.items| }

  /** Where claim `k` starts; behind the last one the log ends. */
  function At(cs: seq<Claim>, log: seq<int>, k: nat): nat { if k < |cs| then cs[k].s else |log| }

  /** They cover the log, one behind the other. */
  ghost predicate Tiles(cs: seq<Claim>, log: seq<int>)
  {
    && (if cs == [] then log == [] else cs[0].s == 0 && End(cs[|cs| - 1]) == |log|)
    && (forall k :: 0 <= k < |cs| ==> cs[k].items != [] && End(cs[k]) <= |log| && log[cs[k].s..End(cs[k])] == cs[k].items)
    && forall j, k :: 0 <= j && j + 1 == k < |cs| ==> End(cs[j]) == cs[k].s
  }

  lemma {:induction false} StartsAscend(cs: seq<Claim>, log: seq<int>, j: nat, k: nat)
    requires Tiles(cs, log) && j <= k <= |cs|
    ensures At(cs, log, j) + (k - j) <= At(cs, log, k) <= |log|
    decreases k
  {
    if j < k {
      StartsAscend(cs, log, j, k - 1);
      assert End(cs[k - 1]) == At(cs, log, k) by { if k < |cs| { assert End(cs[k - 1]) == cs[k].s; } }
    }
  }

  /** One more claim at the end. */
  lemma TilesGrow(cs: seq<Claim>, log: seq<int>, items: seq<int>)
    requires Tiles(cs, log) && items != []
    ensures Tiles(cs + [Claim(|log|, items)], log + items)
  {
    var cs', log' := cs + [Claim(|log|, items)], log + items;
    forall k | 0 <= k < |cs'|
      ensures cs'[k].items != [] && End(cs'[k]) <= |log'| && log'[cs'[k].s..End(cs'[k])] == cs'[k].items
    {
      if k < |cs| { PrefixSlice(log, log', cs[k].s, End(cs[k])); }
    }
  }

  predicate Awaited(r: R.Ring, s: nat) { exists p :: 0 <= p < |r.producers| && Waits(r.producers[p]) && r.producers[p].s == s }

  predicate ClaimedBy(q: R.Producer, cs: seq<Claim>)
    requires q.Scan?
  {
    exists k :: 0 <= k < |cs| && cs[k] == Claim(q.s, q.items)
  }

  /** How far claims reach that do not wait: a ring ahead of the multicast, if all grants were clear of the backup cursor. */
  function Limit(r: R.Ring, clear: bool): nat
    requires TwoCursors(r)
  {
    r.cap + if clear then Second(r) else First(r)
  }

  /** Claims whose producer no longer waits keep to the limit. */
  ghost predicate Booked(e: int -> Entry, r: R.Ring, cs: seq<Claim>, clear: bool)
    requires TwoCursors(r)
  {
    && Tiles(cs, r.log)
    && (forall k :: 0 <= k < |cs| ==> Puttable(Entries(e, cs[k].items)) && (Awaited(r, cs[k].s) || End(cs[k]) <= Limit(r, clear)))
    && (forall p {:trigger ClaimedBy(r.producers[p], cs)} :: 0 <= p < |r.producers| && Waits(r.producers[p]) ==> ClaimedBy(r.producers[p], cs))
  }

  lemma ConsumersKeepBooks(e: int -> Entry, r: R.Ring, r': R.Ring, cs: seq<Claim>, clear: bool)
    requires TwoCursors(r) && TwoCursors(r') && Booked(e, r, cs, clear)
    requires r' == r.(consumers := r'.consumers) && First(r) <= First(r') && Second(r) <= Second(r')
    ensures Booked(e, r', cs, clear)
  {
    forall k | 0 <= k < |cs| ensures Awaited(r', cs[k].s) || End(cs[k]) <= Limit(r', clear) {
      assert Awaited(r, cs[k].s) ==> Awaited(r', cs[k].s);
    }
  }

  /** Producer `p` has moved, and nobody else. */
  ghost predicate MovesAlone(r: R.Ring, p: nat, r': R.Ring)
  {
    && p < |r.producers| == |r'.producers| && r'.cap == r.cap && r'.consumers == r.consumers
    && r'.producers == r.producers[p := r'.producers[p]]
  }

  lemma StillAwaited(r: R.Ring, p: nat, r': R.Ring, s: nat)
    requires MovesAlone(r, p, r') && Awaited(r, s)
    ensures Awaited(r', s) || (Waits(r.producers[p]) && r.producers[p].s == s)
  {
    var q :| 0 <= q < |r.producers| && Waits(r.producers[q]) && r.producers[q].s == s;
    assert q != p ==> Waits(r'.producers[q]);
  }

  lemma StillClaimed(q: R.Producer, cs: seq<Claim>, c: Claim)
    requires q.Scan? && ClaimedBy(q, cs)
    ensures ClaimedBy(q, cs + [c])
  {
    var k :| 0 <= k < |cs| && cs[k] == Claim(q.s, q.items);
    assert (cs + [c])[k] == cs[k];
  }

  /** A step after which its producer waits exactly if it did, for the same claim. */
  ghost predicate KeepsWaiting(q: R.Producer, q': R.Producer)
  {
    (Waits(q) <==> Waits(q')) && (Waits(q) ==> q'.s == q.s && q'.items == q.items)
  }

  lemma QuietKeepsBooks(e: int -> Entry, r: R.Ring, p: nat, r': R.Ring, cs: seq<Claim>, clear: bool)
    requires TwoCursors(r) && Booked(e, r, cs, clear) && MovesAlone(r, p, r') && r'.log == r.log
    requires KeepsWaiting(r.producers[p], r'.producers[p])
    ensures Booked(e, r', cs, clear)
  {
    forall k | 0 <= k < |cs| ensures Awaited(r', cs[k].s) || End(cs[k]) <= Limit(r', clear) {
      if Awaited(r, cs[k].s) {
        StillAwaited(r, p, r', cs[k].s);
        assert Waits(r'.producers[p]) ==> Awaited(r', r'.producers[p].s);
      }
    }
    forall q | 0 <= q < |r'.producers| && Waits(r'.producers[q]) ensures ClaimedBy(r'.producers[q], cs) {
      assert Waits(r.producers[q]) && ClaimedBy(r.producers[q], cs);
    }
  }

  /** A producer that waited is let in. */
  lemma GrantKeepsBooks(e: int -> Entry, r: R.Ring, p: nat, r': R.Ring, cs: seq<Claim>, clear: bool)
    requires TwoCursors(r) && Booked(e, r, cs, clear) && MovesAlone(r, p, r') && r'.log == r.log
    requires Waits(r.producers[p]) && !Waits(r'.producers[p]) && r.producers[p].s + |r.producers[p].items| <= Limit(r, clear)
    ensures Booked(e, r', cs, clear)
  {
    forall k | 0 <= k < |cs| ensures Awaited(r', cs[k].s) || End(cs[k]) <= Limit(r', clear) {
      if Awaited(r, cs[k].s) {
        StillAwaited(r, p, r', cs[k].s);
        if r.producers[p].s == cs[k].s { ClaimAt(r.producers[p], cs, r.log, k); }
      }
    }
    forall q | 0 <= q < |r'.producers| && Waits(r'.producers[q]) ensures ClaimedBy(r'.producers[q], cs) {
      assert Waits(r.producers[q]) && ClaimedBy(r.producers[q], cs);
    }
  }

  /** Starts tell claims apart. */
  lemma ClaimAt(q: R.Producer, cs: seq<Claim>, log: seq<int>, k: nat)
    requires q.Scan? && Tiles(cs, log) && k < |cs| && cs[k].s == q.s && ClaimedBy(q, cs)
    ensures cs[k] == Claim(q.s, q.items)
  {
    var j :| 0 <= j < |cs| && cs[j] == Claim(q.s, q.items);
    if j < k { StartsAscend(cs, log, j, k); } else { StartsAscend(cs, log, k, j); }
  }

  /** A producer claims what comes next: it waits, or keeps to the limit. */
  lemma ClaimKeepsBooks(e: int -> Entry, r: R.Ring, p: nat, r': R.Ring, cs: seq<Claim>, items: seq<int>, clear: bool)
    requires TwoCursors(r) && Booked(e, r, cs, clear) && MovesAlone(r, p, r') && r'.log == r.log + items
    requires items != [] && Puttable(Entries(e, items)) && !Waits(r.producers[p])
    requires if Waits(r'.producers[p]) then r'.producers[p].s == |r.log| && r'.producers[p].items == items
             else |r.log| + |items| <= Limit(r, clear)
    ensures Booked(e, r', cs + [Claim(|r.log|, items)], clear)
  {
    var c := Claim(|r.log|, items);
    TilesGrow(cs, r.log, items);
    forall k | 0 <= k < |cs + [c]| ensures Awaited(r', (cs + [c])[k].s) || End((cs + [c])[k]) <= Limit(r', clear) {
      if k == |cs| { assert Waits(r'.producers[p]) ==> Awaited(r', |r.log|); }
      else if Awaited(r, cs[k].s) { StillAwaited(r, p, r', cs[k].s); }
    }
    forall q | 0 <= q < |r'.producers| && Waits(r'.producers[q]) ensures ClaimedBy(r'.producers[q], cs + [c]) {
      if q == p { assert (cs + [c])[|cs|] == c; } else { StillClaimed(r.producers[q], cs, c); }
    }
  }

  predicate Claims(st: R.Step) { st.Claim? || st.CasOk? }

  /** Only a claim changes the log, and only claims and grants change who waits for what. */
  lemma OthersDoNotWait(e: int -> Entry, r: R.Ring, st: R.Step, r': R.Ring)
    requires Tidy(e, r) && RingStep(e, r, st, r') && R.ProducerStep(st) && !Claims(st)
    ensures MovesAlone(r, st.p, r') && r'.log == r.log
    ensures KeepsWaiting(r.producers[st.p], r'.producers[st.p])
            || (Waits(r.producers[st.p]) && !Waits(r'.producers[st.p]) && P.Admits(r, r.producers[st.p], st))
  {
  }

  lemma GrantsKeepLimit(e: int -> Entry, r: R.Ring, st: R.Step, clear: bool)
    requires Tidy(e, r) && R.ProducerStep(st) && st.p < |r.producers| && P.Admits(r, r.producers[st.p], st)
    requires clear ==> P.ClearGrant(r, st)
    ensures r.producers[st.p].s + |r.producers[st.p].items| <= Limit(r, clear)
  {
    var q := r.producers[st.p];
    assert Neat(e, r, q);
    if clear { ClearIsBehindBoth(r, q.s + |q.items|); }
  }

  /** What is claimed, and how it stands with the claiming producer. */
  lemma ClaimIsNext(e: int -> Entry, r: R.Ring, st: R.Step, r': R.Ring)
    requires Tidy(e, r) && RingStep(e, r, st, r') && Claims(st)
    ensures var q, q' := r.producers[st.p], r'.producers[st.p];
      && q' != R.Idle && q'.items != [] && Puttable(Entries(e, q'.items)) && !Waits(q) && q'.s == |r.log|
      && MovesAlone(r, st.p, r') && r'.log == r.log + q'.items
      && (Waits(q') || (P.Admits(r, q, st) && q.s == q'.s && q.items == q'.items))
  {
    assert Neat(e, r, r.producers[st.p]);
  }

  lemma ProducerKeepsBooks(e: int -> Entry, r: R.Ring, st: R.Step, r': R.Ring, cs: seq<Claim>, clear: bool) returns (cs': seq<Claim>)
    requires Tidy(e, r) && Booked(e, r, cs, clear) && RingStep(e, r, st, r') && R.ProducerStep(st) && (clear ==> P.ClearGrant(r, st))
    ensures TwoCursors(r') && Booked(e, r', cs', clear)
    ensures |cs| <= |cs'| && forall k :: 0 <= k <= |cs| ==> At(cs', r'.log, k) == At(cs, r.log, k)
  {
    if P.Admits(r, r.producers[st.p], st) { GrantsKeepLimit(e, r, st, clear); }
    if Claims(st) {
      ClaimIsNext(e, r, st, r');
      cs' := cs + [Claim(|r.log|, r'.producers[st.p].items)];
      ClaimKeepsBooks(e, r, st.p, r', cs, r'.producers[st.p].items, clear);
    } else {
      OthersDoNotWait(e, r, st, r');
      cs' := cs;
      if KeepsWaiting(r.producers[st.p], r'.producers[st.p]) { QuietKeepsBooks(e, r, st.p, r', cs, clear); }
      else { GrantKeepsBooks(e, r, st.p, r', cs, clear); }
    }
  }

  lemma ClearIsBehindBoth(r: R.Ring, upto: nat)
    requires TwoCursors(r) && P.Clear(r, upto)
    ensures upto <= r.cap + Second(r)
  {
    assert r.consumers[1].cursor.Live?;
  }

  // ---- what the protocol sees -----------------------------------------------------------------

  lemma {:induction false} FillOn(slots: seq<Entry>, s: nat, a: seq<Entry>, b: seq<Entry>)
    requires |slots| > 0
    ensures Fill(Fill(slots, s, a), s + |a|, b) == Fill(slots, s, a + b)
    decreases |a|
  {
    if a == [] {
      assert a + b == b;
    } else {
      assert (a + b)[0] == a[0] && (a + b)[1..] == a[1..] + b;
      FillOn(slots[s % |slots| := a[0]], s + 1, a[1..], b);
    }
  }

  /** The next claim is put, with the multicast cursor for a scan. */
  lemma PutsOne(e: int -> Entry, blank: Entry, y: System, log: seq<int>, c: Claim, clear: bool)
    requires y.snd.cap > 0 && !y.snd.stopped && End(c) <= |log| < WIRE_SEQ_MAX && log[c.s..End(c)] == c.items
    requires GetsTo(WithLog(y, blank, Entries(e, log[..c.s])), clear)
    requires Puttable(Entries(e, c.items)) && End(c) <= y.snd.cap + if clear then y.snd.rs1 else y.snd.rs0
    ensures GetsTo(WithLog(y, blank, Entries(e, log[..End(c)])), clear)
  {
    var before, items := Entries(e, log[..c.s]), Entries(e, c.items);
    assert before + items == Entries(e, log[..End(c)]);
    PutsEntries(blank, y, before, items, clear);
  }

  lemma PutsEntries(blank: Entry, y: System, log: seq<Entry>, items: seq<Entry>, clear: bool)
    requires y.snd.cap > 0 && !y.snd.stopped && GetsTo(WithLog(y, blank, log), clear)
    requires Puttable(items) && |log| + |items| < WIRE_SEQ_MAX && |log| + |items| <= y.snd.cap + if clear then y.snd.rs1 else y.snd.rs0
    ensures GetsTo(WithLog(y, blank, log + items), clear)
  {
    var y0 := WithLog(y, blank, log);
    ReachedHasInv(y0, clear);
    FillOn(Blank(y.snd.cap, blank), 0, log, items);
    assert WithLog(y, blank, log + items) == y0.(snd := Put(y0.snd, items));
    GoesOn(y0, StepPut(items, y.snd.rs0), WithLog(y, blank, log + items), clear);
  }

  lemma {:induction false} PutsAll(e: int -> Entry, blank: Entry, y: System, log: seq<int>, cs: seq<Claim>, k: nat, upto: nat, clear: bool)
    requires y.snd.cap > 0 && !y.snd.stopped && Tiles(cs, log) && k <= upto <= |cs| && |log| < WIRE_SEQ_MAX
    requires At(cs, log, k) <= |log| && GetsTo(WithLog(y, blank, Entries(e, log[..At(cs, log, k)])), clear)
    requires forall j :: k <= j < upto ==>
      Puttable(Entries(e, cs[j].items)) && End(cs[j]) <= y.snd.cap + if clear then y.snd.rs1 else y.snd.rs0
    ensures At(cs, log, upto) <= |log| && GetsTo(WithLog(y, blank, Entries(e, log[..At(cs, log, upto)])), clear)
    decreases upto - k
  {
    if k < upto {
      PutsOne(e, blank, y, log, cs[k], clear);
      assert End(cs[k]) == At(cs, log, k + 1) by { if k + 1 < |cs| { assert End(cs[k]) == cs[k + 1].s; } }
      PutsAll(e, blank, y, log, cs, k + 1, upto, clear);
    }
  }

  /** Everything up to some claim is put. */
  lemma FrontierIsAStart(e: int -> Entry, r: R.Ring, cs: seq<Claim>, clear: bool) returns (k: nat)
    requires TwoCursors(r) && Booked(e, r, cs, clear)
    ensures k <= |cs| && At(cs, r.log, k) == Frontier(r)
  {
    k := |cs|;
    if Frontier(r) != |r.log| {
      var p :| 0 <= p < |r.producers| && Waits(r.producers[p]) && r.producers[p].s == Frontier(r);
      assert ClaimedBy(r.producers[p], cs);
      k :| 0 <= k < |cs| && cs[k] == Claim(r.producers[p].s, r.producers[p].items);
    }
  }

  lemma FrontierGrows(e: int -> Entry, r: R.Ring, st: R.Step, r': R.Ring)
    requires Tidy(e, r) && RingStep(e, r, st, r') && R.ProducerStep(st)
    ensures Frontier(r) <= Frontier(r') && r.log <= r'.log && r'.consumers == r.consumers && r'.cap == r.cap
  {
    StepOpens(e, r, st, r');
    if Claims(st) { ClaimIsNext(e, r, st, r'); } else { OthersDoNotWait(e, r, st, r'); }
    forall p | 0 <= p < |r'.producers| && Waits(r'.producers[p]) ensures Frontier(r) <= r'.producers[p].s {
      if Waits(r.producers[p]) { assert r'.producers[p].s == r.producers[p].s; }
    }
  }

  /** The claims between two frontiers wait no longer. */
  lemma PutsUpTo(e: int -> Entry, blank: Entry, y: System, from: nat, r: R.Ring, cs: seq<Claim>, k: nat, clear: bool)
    requires TwoCursors(r) && Booked(e, r, cs, clear) && y.snd == WithCursors(y, r).snd && !y.snd.stopped && |r.log| < WIRE_SEQ_MAX
    requires k <= |cs| && from == At(cs, r.log, k) <= Frontier(r) && GetsTo(WithLog(y, blank, Entries(e, r.log[..from])), clear)
    ensures GetsTo(WithLog(y, blank, Entries(e, r.log[..Frontier(r)])), clear)
  {
    var upto := FrontierIsAStart(e, r, cs, clear);
    if upto <= k {
      StartsAscend(cs, r.log, upto, k);
    } else {
      forall j | k <= j < upto ensures Puttable(Entries(e, cs[j].items)) && End(cs[j]) <= Limit(r, clear) {
        StartsAscend(cs, r.log, j, upto);
        if Awaited(r, cs[j].s) { assert false; }
      }
      PutsAll(e, blank, y, r.log, cs, k, upto, clear);
    }
  }

  lemma ProducerIsSeen(e: int -> Entry, blank: Entry, i: Impl, st: R.Step, i': Impl, cs: seq<Claim>, clear: bool) returns (cs': seq<Claim>)
    requires Tidy(e, i.ring) && Booked(e, i.ring, cs, clear) && GetsTo(Seen(e, blank, i), clear) && !i.sys.snd.stopped
    requires RingStep(e, i.ring, st, i'.ring) && i'.sys == i.sys && R.ProducerStep(st) && (clear ==> P.ClearGrant(i.ring, st))
    ensures TwoCursors(i'.ring) && Booked(e, i'.ring, cs', clear) && GetsTo(Seen(e, blank, i'), clear)
  {
    FrontierGrows(e, i.ring, st, i'.ring);
    var k := FrontierIsAStart(e, i.ring, cs, clear);
    cs' := ProducerKeepsBooks(e, i.ring, st, i'.ring, cs, clear);
    assert |i'.ring.log| < WIRE_SEQ_MAX;
    SeenOn(e, blank, i, i', cs', k, clear);
  }

  lemma SeenOn(e: int -> Entry, blank: Entry, i: Impl, i': Impl, cs: seq<Claim>, k: nat, clear: bool)
    requires TwoCursors(i.ring) && TwoCursors(i'.ring) && i'.sys == i.sys && !i.sys.snd.stopped && |i'.ring.log| < WIRE_SEQ_MAX
    requires i.ring.log <= i'.ring.log && i'.ring.consumers == i.ring.consumers && i'.ring.cap == i.ring.cap
    requires Booked(e, i'.ring, cs, clear) && GetsTo(Seen(e, blank, i), clear)
    requires k <= |cs| && At(cs, i'.ring.log, k) == Frontier(i.ring) <= Frontier(i'.ring)
    ensures GetsTo(Seen(e, blank, i'), clear)
  {
    assert i'.ring.log[..Frontier(i.ring)] == i.ring.log[..Frontier(i.ring)];
    PutsUpTo(e, blank, WithCursors(i'.sys, i'.ring), Frontier(i.ring), i'.ring, cs, k, clear);
  }

  /** Looking ahead is the multicast's view of the ring growing. */
  lemma LookingIsSeen(e: int -> Entry, blank: Entry, i: Impl, st: R.Step, i': Impl, clear: bool)
    requires Tidy(e, i.ring) && GetsTo(Seen(e, blank, i), clear) && !i.sys.snd.stopped && TwoCursors(i'.ring)
    requires RingStep(e, i.ring, st, i'.ring) && i'.sys == i.sys && !R.ProducerStep(st)
    ensures GetsTo(Seen(e, blank, i'), clear)
  {
    var y, y' := Seen(e, blank, i), Seen(e, blank, i');
    if st.PeekOne? && st.c == 0 {
      PeekedIsPut(e, i.ring);
      ReachedHasInv(y, clear);
      GoesOn(y, StepExpose, y', clear);
    } else {
      assert y' == y;
    }
  }

  /** What is committed behind everything looked at has been put. */
  lemma PeekedIsPut(e: int -> Entry, r: R.Ring)
    requires Tidy(e, r) && r.slots[r.consumers[0].end % |r.slots|].tag == Some(r.consumers[0].end)
    ensures r.consumers[0].end < Frontier(r)
  {
    var end := r.consumers[0].end;
    assert ConsumerTidy(r, r.consumers[0]);
    assert end in r.done;
    if Frontier(r) != |r.log| {
      var p :| 0 <= p < |r.producers| && Waits(r.producers[p]) && r.producers[p].s == Frontier(r);
      assert Neat(e, r, r.producers[p]) && P.Open(r.producers[p], Frontier(r));
    }
  }

  /** The protocol's other steps leave the ring as it is, but for the cursors. */
  lemma SystemKeepsRing(y: System, st: Step, z: System)
    requires Next(y, st, z) && !st.StepPut? && !st.StepExpose?
    ensures z.snd.cap == y.snd.cap && z.snd.log == y.snd.log && z.snd.slots == y.snd.slots && z.snd.visible == y.snd.visible
  {
  }

  lemma SystemIsSeen(e: int -> Entry, blank: Entry, i: Impl, st: Step, i': Impl, clear: bool)
    requires Tidy(e, i.ring) && GetsTo(Seen(e, blank, i), clear)
    requires !st.StepPut? && !st.StepExpose? && Next(Seen(e, blank, i), st, i'.sys) && Follows(i.ring, i'.sys.snd, i'.ring)
    ensures TwoCursors(i'.ring) && Seen(e, blank, i') == i'.sys && GetsTo(Seen(e, blank, i'), clear)
  {
    SystemKeepsRing(Seen(e, blank, i), st, i'.sys);
    GoesOn(Seen(e, blank, i), st, i'.sys, clear);
    ReachedHasInv(i'.sys, clear);
  }

  lemma StartsSeen(e: int -> Entry, blank: Entry, i: Impl, replay: nat)
    requires R.Initial(0, i.ring) && TwoCursors(i.ring) && i.sys == System(Initial(i.ring.cap, replay, blank), map[])
    ensures Tidy(e, i.ring) && Booked(e, i.ring, [], true) && Booked(e, i.ring, [], false)
    ensures GetsTo(Seen(e, blank, i), true) && GetsTo(Seen(e, blank, i), false)
  {
    var y := Seen(e, blank, i);
    assert y == i.sys;
    var states, steps: seq<Step> := [y], [];
    assert RunTo(states, steps, y, true) && RunTo(states, steps, y, false);
  }

  lemma ImplStepIsSeen(e: int -> Entry, blank: Entry, i: Impl, st: ImplStep, i': Impl, cs: seq<Claim>, clear: bool)
    returns (cs': seq<Claim>)
    requires ImplNext(e, blank, i, st, i') && Tidy(e, i.ring) && Booked(e, i.ring, cs, clear) && GetsTo(Seen(e, blank, i), clear)
    requires clear && st.ByRing? ==> P.ClearGrant(i.ring, st.st)
    ensures Tidy(e, i'.ring) && Booked(e, i'.ring, cs', clear) && GetsTo(Seen(e, blank, i'), clear)
  {
    cs' := cs;
    match st
    case BySystem(s) =>
      SystemIsSeen(e, blank, i, s, i', clear);
      FollowingTidy(e, i.ring, i'.sys.snd, i'.ring);
      ConsumersKeepBooks(e, i.ring, i'.ring, cs, clear);
    case ByRing(s) =>
      if R.ProducerStep(s) {
        ProducerStepTidy(e, i.ring, s, i'.ring);
        cs' := ProducerIsSeen(e, blank, i, s, i', cs, clear);
      } else {
        ConsumerStepTidy(e, i.ring, s, i'.ring);
        ConsumersKeepBooks(e, i.ring, i'.ring, cs, clear);
        LookingIsSeen(e, blank, i, s, i', clear);
      }
  }

  /** The ring is as it should be, and what the protocol sees of it comes from a run of the protocol. */
  ghost predicate Fine(e: int -> Entry, blank: Entry, i: Impl, clear: bool)
  {
    exists cs :: FineWith(e, blank, i, cs, clear)
  }

  ghost predicate FineWith(e: int -> Entry, blank: Entry, i: Impl, cs: seq<Claim>, clear: bool)
  {
    Tidy(e, i.ring) && Booked(e, i.ring, cs, clear) && GetsTo(Seen(e, blank, i), clear)
  }

  lemma FineAtStart(e: int -> Entry, blank: Entry, i: Impl, clear: bool)
    requires ImplInitial(blank, i)
    ensures Fine(e, blank, i, clear)
  {
    var replay :| i.sys == System(Initial(i.ring.cap, replay, blank), map[]);
    StartsSeen(e, blank, i, replay);
    assert FineWith(e, blank, i, [], clear);
  }

  lemma StepIsFine(e: int -> Entry, blank: Entry, i: Impl, st: ImplStep, i': Impl, clear: bool)
    requires ImplNext(e, blank, i, st, i') && Fine(e, blank, i, clear) && (clear && st.ByRing? ==> P.ClearGrant(i.ring, st.st))
    ensures Fine(e, blank, i', clear)
  {
    var cs :| FineWith(e, blank, i, cs, clear);
    var cs' := ImplStepIsSeen(e, blank, i, st, i', cs, clear);
    assert FineWith(e, blank, i', cs', clear);
  }

  lemma AlwaysFine(e: int -> Entry, blank: Entry, impls: seq<Impl>, sts: seq<ImplStep>, i: nat, clear: bool)
    requires ImplRun(e, blank, impls, sts) && i < |impls| && (clear ==> ClearGrants(impls, sts))
    ensures Fine(e, blank, impls[i], clear)
  {
    FineAtStart(e, blank, impls[0], clear);
    var good := (x: Impl) => Fine(e, blank, x, clear);
    forall j, k | 0 <= j && j + 1 == k < |impls| && good(impls[j]) ensures good(impls[k]) {
      StepIsFine(e, blank, impls[j], sts[j], impls[k], clear);
    }
    Induct(impls, good, i);
  }

  // ---- the ring in clear runs -----------------------------------------------------------------

  /** The cursors follow the protocol's by two steps of the ring. */
  lemma FollowingIsWasting(r: R.Ring, x: Sender, r': R.Ring) returns (mid: R.Ring)
    requires TwoCursors(r) && |r.slots| > 0 && Follows(r, x, r')
    ensures R.Next(0, r, R.Waste(0, x.rs0 - First(r)), mid) && R.Next(0, mid, R.Waste(1, x.rs1 - Second(r)), r')
  {
    mid := r.(consumers := [r.consumers[0].(cursor := R.Live(x.rs0)), r.consumers[1]]);
    assert mid.consumers == r.consumers[0 := r.consumers[0].(cursor := R.Live(x.rs0))];
    assert r'.consumers == mid.consumers[1 := mid.consumers[1].(cursor := R.Live(x.rs1))];
  }

  /** The ring's own invariant, and with steady scans what producers rely on. */
  ghost predicate RingOk(r: R.Ring, steady: bool) { P.Inv(0, r) && (steady ==> S.AllSound(r)) }

  lemma RingOkAtStart(r: R.Ring)
    requires R.Initial(0, r)
    ensures RingOk(r, true)
  {
  }

  lemma RingStepOk(r: R.Ring, st: R.Step, r': R.Ring, steady: bool)
    requires RingOk(r, steady) && R.Next(0, r, st, r') && (if steady then R.Steady(r, st) else P.ClearGrant(r, st))
    ensures RingOk(r', steady) && P.ClearGrant(r, st)
  {
    if steady { S.SteadyStepKeeps(0, r, st, r'); }
    P.StepKeeps(0, r, st, r');
  }

  lemma ImplStepOk(e: int -> Entry, blank: Entry, i: Impl, st: ImplStep, i': Impl, steady: bool)
    requires ImplNext(e, blank, i, st, i') && RingOk(i.ring, steady)
    requires st.ByRing? ==> if steady then R.Steady(i.ring, st.st) else P.ClearGrant(i.ring, st.st)
    ensures RingOk(i'.ring, steady) && (st.ByRing? ==> P.ClearGrant(i.ring, st.st))
  {
    match st
    case ByRing(s) => RingStepOk(i.ring, s, i'.ring, steady);
    case BySystem(s) =>
      var mid := FollowingIsWasting(i.ring, i'.sys.snd, i'.ring);
      RingStepOk(i.ring, R.Waste(0, i'.sys.snd.rs0 - First(i.ring)), mid, steady);
      RingStepOk(mid, R.Waste(1, i'.sys.snd.rs1 - Second(i.ring)), i'.ring, steady);
  }

  lemma RingAlwaysOk(e: int -> Entry, blank: Entry, impls: seq<Impl>, sts: seq<ImplStep>, i: nat, steady: bool)
    requires ImplRun(e, blank, impls, sts) && i < |impls|
    requires if steady then SteadyScans(impls, sts) else ClearGrants(impls, sts)
    ensures RingOk(impls[i].ring, steady)
  {
    RingOkAtStart(impls[0].ring);
    var good := (x: Impl) => RingOk(x.ring, steady);
    forall j, k | 0 <= j && j + 1 == k < |impls| && good(impls[j]) ensures good(impls[k]) {
      ImplStepOk(e, blank, impls[j], sts[j], impls[k], steady);
    }
    Induct(impls, good, i);
  }

  /** Each re-read of the smallest cursor during a scan finds the value the scan saw before. */
  ghost predicate SteadyScans(impls: seq<Impl>, sts: seq<ImplStep>)
    requires |impls| == |sts| + 1
  {
    forall i :: 0 <= i < |sts| && sts[i].ByRing? ==> R.Steady(impls[i].ring, sts[i].st)
  }

  // ---- results --------------------------------------------------------------------------------

  lemma SteadyScansAreClear(e: int -> Entry, blank: Entry, impls: seq<Impl>, sts: seq<ImplStep>)
    requires ImplRun(e, blank, impls, sts) && SteadyScans(impls, sts)
    ensures ClearGrants(impls, sts)
  {
    forall i | 0 <= i < |sts| && sts[i].ByRing? ensures P.ClearGrant(impls[i].ring, sts[i].st) {
      RingAlwaysOk(e, blank, impls, sts, i, true);
      ImplStepOk(e, blank, impls[i], sts[i], impls[i + 1], true);
    }
  }

  /**
   * Whatever the ring's producers do in between each other and the protocol's steps: what the protocol sees is a state
   * of one of its runs, and if every producer let in found its slots left, of one in which every put is clear.
   */
  lemma RingRunsAreRuns(e: int -> Entry, blank: Entry, impls: seq<Impl>, sts: seq<ImplStep>, i: nat)
    requires ImplRun(e, blank, impls, sts) && i < |impls|
    ensures TwoCursors(impls[i].ring) && GetsTo(Seen(e, blank, impls[i]), false)
    ensures ClearGrants(impls, sts) ==> GetsTo(Seen(e, blank, impls[i]), true)
  {
    AlwaysFine(e, blank, impls, sts, i, false);
    if ClearGrants(impls, sts) { AlwaysFine(e, blank, impls, sts, i, true); }
  }

  /**
   * In such a run the ring's memory is the one the protocol reads: for every sequence from the backup cursor on, as far
   * as the multicast has looked, it holds the item claimed for it.
   */
  lemma MemoryIsSeen(e: int -> Entry, blank: Entry, impls: seq<Impl>, sts: seq<ImplStep>, i: nat, u: nat)
    requires ImplRun(e, blank, impls, sts) && ClearGrants(impls, sts) && i < |impls|
    requires TwoCursors(impls[i].ring) && Second(impls[i].ring) <= u < impls[i].ring.consumers[0].end
    ensures MemoryHolds(e, impls[i].ring, Seen(e, blank, impls[i]).snd, u)
  {
    RingAlwaysOk(e, blank, impls, sts, i, false);
    AlwaysFine(e, blank, impls, sts, i, true);
    HoldsAt(e, blank, impls[i], u);
  }

  ghost predicate MemoryHolds(e: int -> Entry, r: R.Ring, x: Sender, u: nat)
  {
    P.Holds(r, u) && u < |x.log| && |x.slots| > 0 && x.slots[u % |x.slots|] == x.log[u] == e(r.log[u])
  }

  lemma HoldsAt(e: int -> Entry, blank: Entry, i: Impl, u: nat)
    requires P.Inv(0, i.ring) && Fine(e, blank, i, true) && TwoCursors(i.ring) && Second(i.ring) <= u < i.ring.consumers[0].end
    ensures MemoryHolds(e, i.ring, Seen(e, blank, i).snd, u)
  {
    RingHolds(e, i.ring, u);
    ReachedHasInv(Seen(e, blank, i), true);
    SlotSeen(Seen(e, blank, i).snd, u);
  }

  lemma RingHolds(e: int -> Entry, r: R.Ring, u: nat)
    requires P.Inv(0, r) && Tidy(e, r) && Second(r) <= u < r.consumers[0].end
    ensures P.Holds(r, u)
  {
    assert ConsumerTidy(r, r.consumers[0]) && P.ConsumerOk(r, r.consumers[1]);
  }

  lemma SlotSeen(x: Sender, u: nat)
    requires RingInv(x) && HasRoom(x) && x.rs1 <= u < x.visible
    ensures x.slots[u % |x.slots|] == x.log[u]
  {
    assert u < |x.log| <= u + x.cap;
  }

  /** The sender with the ring memory `mem`. */
  function On(y: System, mem: seq<Entry>): System { y.(snd := y.snd.(slots := mem)) }

  function SlotOf(mem: seq<Entry>, u: nat): Entry
    requires |mem| > 0
  {
    mem[u % |mem|]
  }

  ghost predicate SameWhereRead(x: Sender, mem: seq<Entry>)
  {
    |mem| == |x.slots| > 0 && forall u: nat :: x.rs1 <= u < x.visible ==> SlotOf(mem, u) == SlotOf(x.slots, u)
  }

  /** Nothing else is ever read: the protocol takes the same step on any memory that agrees there. */
  lemma StepsReadBehindCursor(y: System, mem: seq<Entry>, st: Step, z: System)
    requires Inv(y) && Next(y, st, z) && !st.StepPut? && SameWhereRead(y.snd, mem)
    ensures Next(On(y, mem), st, On(z, mem))
  {
    match st
    case StepMulticast => SameDatagram(y.snd, mem);
    case StepLink(id, op) => SameApply(y.snd, mem, y.links[id], op);
    case _ =>
  }

  lemma SameDatagram(x: Sender, mem: seq<Entry>)
    requires SenderInv(x) && x.batch.Batch? && |x.slots| > 0 && SameWhereRead(x, mem)
    ensures Multicast(x.(slots := mem)) == Multicast(x).(slots := mem)
  {
    var x' := x.(slots := mem);
    var d, d', ads := Datagram(x), Datagram(x'), if x.batch.ads then 1 else 0;
    forall k | 0 <= k < |d| ensures d'[k] == d[k] {
      if ads <= k < ads + x.batch.waste { assert SlotOf(mem, x.rs0 + (k - ads)) == SlotOf(x.slots, x.rs0 + (k - ads)); }
    }
    assert d' == d;
  }

  lemma SameApply(x: Sender, mem: seq<Entry>, l: Link, op: LinkOp)
    requires SenderInv(x) && LinkInv(x, l) && Enabled(x, l, op) && SameWhereRead(x, mem)
    ensures Enabled(x.(slots := mem), l, op) && Apply(x.(slots := mem), l, op) == Apply(x, l, op)
  {
    match op
    case FlushRelic(t) => SameFlush(x, mem, l, t);
    case Serve(k, t) => SameServe(x, mem, l, k, t);
    case _ =>
  }

  lemma SameFlush(x: Sender, mem: seq<Entry>, l: Link, t: nat)
    requires SenderInv(x) && LinkInv(x, l) && Enabled(x, l, FlushRelic(t)) && SameWhereRead(x, mem)
    ensures FlushRelic1(x.(slots := mem), l, t) == FlushRelic1(x, l, t)
  {
    L.ReadsFromFrontier(x, l, FlushRelic(t));
    SameFrames(x, mem, l.clientSubs, l.relic.from, l.relic.from + t);
  }

  lemma SameServe(x: Sender, mem: seq<Entry>, l: Link, k: nat, t: nat)
    requires SenderInv(x) && LinkInv(x, l) && Enabled(x, l, Serve(k, t)) && SameWhereRead(x, mem)
    ensures Apply(x.(slots := mem), l, Serve(k, t)) == Apply(x, l, Serve(k, t))
  {
    var r := l.queue[0];
    if !BadRequest(x, l, r) && r.len > 0 {
      L.ReadsFromFrontier(x, l, Serve(k, t));
      SameFrames(x, mem, l.clientSubs, r.s, r.s + t);
      SameServe1(x, mem, l, k, t);
    }
  }

  lemma SameServe1(x: Sender, mem: seq<Entry>, l: Link, k: nat, t: nat)
    requires |mem| == |x.slots| > 0 && l.queue != [] && l.queue[0].len > 0 && 1 <= k <= l.queue[0].len && t <= k
    requires var r := l.queue[0]; Frames(mem, l.clientSubs, r.s, r.s + t) == Frames(x.slots, l.clientSubs, r.s, r.s + t)
    ensures Serve1(x.(slots := mem), l, k, t) == Serve1(x, l, k, t)
  {
  }

  lemma SameFrames(x: Sender, mem: seq<Entry>, subs: set<Tag>, from: nat, upto: nat)
    requires |x.slots| > 0 && SameWhereRead(x, mem) && x.rs1 <= from && upto <= x.visible
    ensures from <= upto ==> Frames(mem, subs, from, upto) == Frames(x.slots, subs, from, upto)
  {
    if from <= upto {
      var fs, fs' := Frames(x.slots, subs, from, upto), Frames(mem, subs, from, upto);
      forall k | 0 <= k < upto - from ensures fs'[k] == fs[k] {
        assert SlotOf(mem, from + k) == SlotOf(x.slots, from + k);
      }
      assert fs' == fs;
    }
  }

  /** What is in the ring's memory. */
  function Memory(e: int -> Entry, r: R.Ring): (m: seq<Entry>)
    ensures |m| == |r.slots| && forall k :: 0 <= k < |m| ==> m[k] == e(R.ValueOf(r.slots[k].payload))
  {
    seq(|r.slots|, k requires 0 <= k < |r.slots| => e(R.ValueOf(r.slots[k].payload)))
  }

  /** So in a clear run the protocol's steps are those it takes reading the ring's own memory. */
  lemma StepsReadTheRing(e: int -> Entry, blank: Entry, impls: seq<Impl>, sts: seq<ImplStep>, i: nat)
    requires ImplRun(e, blank, impls, sts) && ClearGrants(impls, sts) && i < |sts| && sts[i].BySystem?
    ensures TwoCursors(impls[i].ring)
    ensures var mem := Memory(e, impls[i].ring); Next(On(Seen(e, blank, impls[i]), mem), sts[i].step, On(impls[i + 1].sys, mem))
  {
    RingAlwaysOk(e, blank, impls, sts, i, false);
    AlwaysFine(e, blank, impls, sts, i, true);
    forall u | Second(impls[i].ring) <= u < impls[i].ring.consumers[0].end
      ensures MemoryHolds(e, impls[i].ring, Seen(e, blank, impls[i]).snd, u)
    {
      HoldsAt(e, blank, impls[i], u);
    }
    MemoryIsTheRings(e, blank, impls[i]);
    RealStep(e, blank, impls[i], sts[i], impls[i + 1]);
  }

  lemma OneSlot(e: int -> Entry, r: R.Ring, x: Sender, u: nat)
    requires MemoryHolds(e, r, x, u) && |r.slots| == |x.slots|
    ensures SlotOf(Memory(e, r), u) == SlotOf(x.slots, u)
  {
    assert Memory(e, r)[u % |r.slots|] == e(R.ValueOf(r.slots[u % |r.slots|].payload));
  }

  lemma MemoryIsTheRings(e: int -> Entry, blank: Entry, i: Impl)
    requires TwoCursors(i.ring) && i.ring.cap == |i.ring.slots|
    requires forall u :: Second(i.ring) <= u < i.ring.consumers[0].end ==> MemoryHolds(e, i.ring, Seen(e, blank, i).snd, u)
    ensures SameWhereRead(Seen(e, blank, i).snd, Memory(e, i.ring))
  {
    var x, mem := Seen(e, blank, i).snd, Memory(e, i.ring);
    forall u: nat | x.rs1 <= u < x.visible ensures SlotOf(mem, u) == SlotOf(x.slots, u) { OneSlot(e, i.ring, x, u); }
  }

  lemma RealStep(e: int -> Entry, blank: Entry, i: Impl, st: ImplStep, i': Impl)
    requires ImplNext(e, blank, i, st, i') && st.BySystem? && Fine(e, blank, i, true)
    requires SameWhereRead(Seen(e, blank, i).snd, Memory(e, i.ring))
    ensures var mem := Memory(e, i.ring); Next(On(Seen(e, blank, i), mem), st.step, On(i'.sys, mem))
  {
    ReachedHasInv(Seen(e, blank, i), true);
    StepsReadBehindCursor(Seen(e, blank, i), Memory(e, i.ring), st.step, i'.sys);
  }

  lemma OutputInClearRuns(y: System, id: nat)
    requires GetsTo(y, true) && id in y.links
    ensures T.OutputRight(y.links[id].recv, y.snd.log)
  {
    var states: seq<System>, steps: seq<Step> :| RunTo(states, steps, y, true);
    ClearRunIsFaithful(states, steps);
    T.EndToEndDelivery(states, steps, |steps|, id);
  }

  lemma OutputOfPrefix(r: Recv, log: seq<Entry>, more: seq<Entry>)
    requires T.OutputRight(r, log) && |log| <= |more| && more[..|log|] == log
    ensures T.OutputRight(r, more)
  {
    if r.arb.expecting != SEQ_MAX {
      PrefixSlice(log, more, r.minSeq, r.arb.expecting);
      assert forall s :: 0 <= s < |log| ==> more[..|log|][s] == more[s];
    }
  }

  /**
   * End to end, over the ring: while every producer let in finds its slots left, every receiver has output what it
   * subscribed to of the items claimed between its start sequence and the one it expects, in the order of the claims.
   */
  lemma OutputOverRing(e: int -> Entry, blank: Entry, impls: seq<Impl>, sts: seq<ImplStep>, i: nat, id: nat)
    requires ImplRun(e, blank, impls, sts) && ClearGrants(impls, sts) && i < |impls| && id in impls[i].sys.links
    ensures T.OutputRight(impls[i].sys.links[id].recv, Entries(e, impls[i].ring.log))
  {
    AlwaysFine(e, blank, impls, sts, i, true);
    OutputSeen(e, blank, impls[i], id);
  }

  lemma OutputSeen(e: int -> Entry, blank: Entry, i: Impl, id: nat)
    requires Fine(e, blank, i, true) && id in i.sys.links
    ensures T.OutputRight(i.sys.links[id].recv, Entries(e, i.ring.log))
  {
    OutputInClearRuns(Seen(e, blank, i), id);
    var f := Frontier(i.ring);
    assert Entries(e, i.ring.log)[..f] == Entries(e, i.ring.log[..f]);
    OutputOfPrefix(i.sys.links[id].recv, Entries(e, i.ring.log[..f]), Entries(e, i.ring.log));
  }
}
