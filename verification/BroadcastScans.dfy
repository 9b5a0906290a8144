/** Scanning for the smallest cursor, hmbdc/pattern/MemRingBuffer.hpp, lines 69-71: a scan whose re-reads find the values seen before is safe. */
module BroadcastScans {
  import opened Common
  import opened BroadcastRing
  import opened BroadcastProofs

  /** Cursors never go back, so a value seen earlier is at most today's; who joined since is past `floor`. */
  predicate Conservative(y: Consumer, seen: Cursor, floor: nat)
  {
    y.cursor.Live? ==> !Below(y.cursor, seen) || floor <= y.cursor.pos
  }

  /** Whoever joins after the producer claimed, or looked at the end of the log, is past this. */
  function Floor(x: Producer): nat
    requires x.Scan?
  {
    if x.claimed then x.s + |x.items| else x.s
  }

  /** `seen` is at most every cursor compared so far, and `held` at most the one being compared. */
  ghost predicate ScanOk(r: Ring, x: Producer)
    requires x.Scan?
  {
    && x.s <= |r.log| && 1 <= x.i && x.best < x.i && x.best < |r.consumers|
    && (x.seen == None ==> x.i == 1 && x.best == 0)
    && (x.seen.Some? ==> x.i <= |r.consumers|)
    && (x.seen.Some? ==> forall c :: 0 <= c < x.i ==> Conservative(r.consumers[c], x.seen.value, Floor(x)))
    && (x.held.Some? ==> x.i < |r.consumers| && Conservative(r.consumers[x.i], x.held.value, Floor(x)))
  }

  /** What a producer relies on before it is let in. */
  ghost predicate Sound(r: Ring, x: Producer)
  {
    && (x.Scan? ==> ScanOk(r, x))
    && (x.Cas? ==> x.s <= |r.log| && Clear(r, x.s + |x.items|))
  }

  ghost predicate AllSound(r: Ring) { forall p :: 0 <= p < |r.producers| ==> Sound(r, r.producers[p]) }

  lemma CompareOk(r: Ring, x: Producer)
    requires x.Scan? && ScanOk(r, x) && EnabledFor(r, x, Compare(0)) && SteadyScan(r, x)
    ensures Sound(r, Move(r, x, Compare(0)))
  {
    var x' := Move(r, x, Compare(0));
    forall c | 0 <= c < x'.i ensures Conservative(r.consumers[c], x'.seen.value, Floor(x)) {
      if c == x.i { assert Conservative(r.consumers[c], x.held.value, Floor(x)); }
      else if x.seen.Some? { assert Conservative(r.consumers[c], x.seen.value, Floor(x)); }
    }
    assert ScanOk(r, x');
  }

  /** A steady minimum that leaves room means there is room behind every live consumer. */
  lemma DecideIsClear(r: Ring, x: Producer)
    requires x.Scan? && ScanOk(r, x) && EnabledFor(r, x, Decide(0)) && SteadyScan(r, x) && |x.items| <= r.cap
    requires Fits(r.cap, x.s, |x.items|, r.consumers[x.best].cursor)
    ensures Clear(r, x.s + |x.items|)
  {
    forall c | 0 <= c < |r.consumers| && r.consumers[c].cursor.Live?
      ensures x.s + |x.items| <= r.cap + r.consumers[c].cursor.pos
    {
      if x.seen.Some? { assert Conservative(r.consumers[c], x.seen.value, Floor(x)); }
    }
  }

  /** A cursor that only moves up, or joins at the end, and a log that grows, leave a producer's part alone. */
  lemma OthersKeepSound(r: Ring, r': Ring, x: Producer)
    requires Sound(r, x) && x != Idle && |x.items| <= r.cap && r'.cap == r.cap && |r.log| <= |r'.log|
    requires |r'.consumers| == |r.consumers|
    requires x.Scan? && x.claimed ==> x.s + |x.items| <= |r.log|
    requires forall c :: 0 <= c < |r.consumers| ==>
      var y, z := r.consumers[c].cursor, r'.consumers[c].cursor;
      z.Live? ==> if y.Live? then y.pos <= z.pos else z.pos == |r.log|
    ensures Sound(r', x)
  {
    if x.Scan? {
      if x.seen.Some? {
        forall c | 0 <= c < x.i ensures Conservative(r'.consumers[c], x.seen.value, Floor(x)) {
          assert Conservative(r.consumers[c], x.seen.value, Floor(x));
        }
      }
      assert ScanOk(r', x);
    }
  }

  lemma MoverStaysSound(anchor: nat, r: Ring, st: Step, r': Ring)
    requires Inv(anchor, r) && AllSound(r) && Next(anchor, r, st, r') && Steady(r, st) && ProducerStep(st)
    ensures ClearGrant(r, st) && Sound(r', r'.producers[st.p])
  {
    var x, x' := r.producers[st.p], r'.producers[st.p];
    assert ProducerOk(r, x) && Sound(r, x);
    if st.Compare? { CompareOk(r, x); }
    if st.Decide? && Fits(r.cap, x.s, |x.items|, r.consumers[x.best].cursor) { DecideIsClear(r, x); }
    if x'.Scan? { assert ScanOk(r', x'); }
  }

  lemma SteadyStepKeeps(anchor: nat, r: Ring, st: Step, r': Ring)
    requires Inv(anchor, r) && AllSound(r) && Next(anchor, r, st, r') && Steady(r, st)
    ensures ClearGrant(r, st) && AllSound(r')
  {
    if ProducerStep(st) { MoverStaysSound(anchor, r, st, r'); }
    forall p | 0 <= p < |r'.producers| ensures Sound(r', r'.producers[p]) {
      if (ProducerStep(st) ==> p != st.p) && r.producers[p] != Idle {
        assert ProducerOk(r, r.producers[p]) && Sound(r, r.producers[p]);
        OthersKeepSound(r, r', r.producers[p]);
      }
    }
  }

  lemma {:induction false} SteadyIsClear(anchor: nat, rs: seq<Ring>, sts: seq<Step>, i: nat)
    requires Run(anchor, rs, sts) && SteadyRun(rs, sts) && i < |rs|
    ensures Inv(anchor, rs[i]) && AllSound(rs[i])
    ensures forall k :: 0 <= k < i ==> ClearGrant(rs[k], sts[k])
  {
    if i > 0 {
      SteadyIsClear(anchor, rs, sts, i - 1);
      SteadyStepKeeps(anchor, rs[i - 1], sts[i - 1], rs[i]);
      StepKeeps(anchor, rs[i - 1], sts[i - 1], rs[i]);
    }
  }

  /** In a run whose scans are steady, every producer let in found its slots left, and so the run is safe. */
  lemma SteadyRunsAreSafe(anchor: nat, rs: seq<Ring>, sts: seq<Step>, i: nat)
    requires Run(anchor, rs, sts) && SteadyRun(rs, sts) && i < |rs|
    ensures ClearRun(rs, sts) && Exclusive(rs[i])
  {
    SteadyIsClear(anchor, rs, sts, |sts|);
    ClearRunsAreSafe(anchor, rs, sts, i);
  }
}
