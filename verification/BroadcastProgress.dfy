/** What the broadcast ring's producers and consumers can do by themselves: hmbdc/pattern/MemRingBuffer.hpp, lines 98-420. */
module BroadcastProgress {
  import opened Common
  import opened BroadcastRing
  import opened BroadcastProofs

  ghost function RingStep(anchor: nat): (Ring, Step, Ring) -> bool { (r, st, r') => Next(anchor, r, st, r') }

  /** The steps lead from `r` to `r'`. */
  ghost predicate Goes(anchor: nat, r: Ring, sts: seq<Step>, r': Ring) { Leads(RingStep(anchor), r, sts, r') }

  lemma GoesFirst(anchor: nat, r: Ring, st: Step, m: Ring, sts: seq<Step>, r': Ring)
    requires Next(anchor, r, st, m) && Goes(anchor, m, sts, r')
    ensures Goes(anchor, r, [st] + sts, r')
  {
    LeadsFrom(RingStep(anchor), r, st, m, sts, r');
  }

  lemma GoesOn(anchor: nat, r: Ring, sts: seq<Step>, m: Ring, more: seq<Step>, r': Ring)
    requires Goes(anchor, r, sts, m) && Goes(anchor, m, more, r')
    ensures Goes(anchor, r, sts + more, r')
  {
    LeadsOn(RingStep(anchor), r, sts, m, more, r');
  }

  /** All of them are steps of producer `p`. */
  predicate OnlyBy(p: nat, sts: seq<Step>) { forall i :: 0 <= i < |sts| ==> ProducerStep(sts[i]) && sts[i].p == p }

  /** All of them are steps of consumer `c`. */
  predicate OnlyTo(c: nat, sts: seq<Step>) { forall i :: 0 <= i < |sts| ==> !ProducerStep(sts[i]) && sts[i].c == c }

  /** The ring after producer `st.p`'s step. */
  function After(r: Ring, st: Step): Ring
    requires ProducerStep(st) && st.p < |r.producers| && |r.slots| > 0 && EnabledFor(r, r.producers[st.p], st)
  {
    Effect(r, r.producers[st.p], st).(producers := r.producers[st.p := Move(r, r.producers[st.p], st)])
  }

  lemma Steps(anchor: nat, r: Ring, st: Step)
    requires ProducerStep(st) && st.p < |r.producers| && |r.slots| > 0 && EnabledFor(r, r.producers[st.p], st)
    ensures Next(anchor, r, st, After(r, st))
  {
  }

  /** None of them lets a producer into its slots. */
  predicate Plain(sts: seq<Step>) { forall i :: 0 <= i < |sts| ==> !sts[i].Decide? && !sts[i].CasOk? }

  lemma {:induction false} PlainKeeps(anchor: nat, r: Ring, sts: seq<Step>, r': Ring)
    requires Inv(anchor, r) && Goes(anchor, r, sts, r') && Plain(sts)
    ensures Inv(anchor, r')
    decreases |sts|
  {
    if sts != [] {
      var m :| RingStep(anchor)(r, sts[0], m) && Leads(RingStep(anchor), m, sts[1..], r');
      StepKeeps(anchor, r, sts[0], m);
      PlainKeeps(anchor, m, sts[1..], r');
    }
  }

  // ---- a producer in its slots ----------------------------------------------------------------

  /** Nothing but what producer `p` does to its own entries has happened. */
  ghost predicate OthersSame(p: nat, r: Ring, r': Ring)
  {
    && r'.cap == r.cap && r'.consumers == r.consumers && |r'.producers| == |r.producers|
    && forall q :: 0 <= q < |r.producers| && q != p ==> r'.producers[q] == r.producers[q]
  }

  /** Producer `p` has committed [from, upto), and is done. */
  ghost predicate Committed(p: nat, r: Ring, from: nat, upto: nat, r': Ring)
  {
    && OthersSame(p, r, r') && p < |r'.producers| && r'.producers[p] == Idle && r'.log == r.log
    && (forall u: nat :: u in r'.done <==> u in r.done || from <= u < upto)
  }

  /** One entry, and then the rest. */
  lemma CommittedMore(p: nat, r: Ring, from: nat, m: Ring, upto: nat, r': Ring)
    requires from < upto && OthersSame(p, r, m) && m.log == r.log && m.done == r.done + {from} && Committed(p, m, from + 1, upto, r')
    ensures Committed(p, r, from, upto, r')
  {
  }

  lemma CommitOneAdds(r: Ring, p: nat)
    requires p < |r.producers| && r.producers[p].Committing? && r.producers[p].k < |r.producers[p].items| && |r.slots| > 0
    ensures var x, m := r.producers[p], After(r, CommitOne(p));
      && OthersSame(p, r, m) && m.log == r.log && m.done == r.done + {x.s + x.k} && m.producers[p] == x.(k := x.k + 1)
  {
  }

  lemma {:induction false} Commits(anchor: nat, r: Ring, p: nat) returns (sts: seq<Step>, r': Ring)
    requires |r.slots| > 0 && p < |r.producers| && r.producers[p].Committing? && r.producers[p].k <= |r.producers[p].items|
    ensures Goes(anchor, r, sts, r') && OnlyBy(p, sts) && Plain(sts)
    ensures var x := r.producers[p]; Committed(p, r, x.s + x.k, x.s + |x.items|, r')
    decreases |r.producers[p].items| - r.producers[p].k
  {
    var x := r.producers[p];
    if x.k == |x.items| {
      sts, r' := [Finish(p)], After(r, Finish(p));
      LeadsByOne(RingStep(anchor), r, Finish(p), r');
    } else {
      var m := After(r, CommitOne(p));
      CommitOneAdds(r, p);
      sts, r' := Commits(anchor, m, p);
      CommittedMore(p, r, x.s + x.k, m, x.s + |x.items|, r');
      GoesFirst(anchor, r, CommitOne(p), m, sts, r');
      sts := [CommitOne(p)] + sts;
    }
  }

  lemma {:induction false} Writes(anchor: nat, r: Ring, p: nat) returns (sts: seq<Step>, r': Ring)
    requires |r.slots| > 0 && p < |r.producers| && r.producers[p].Writing? && r.producers[p].k <= |r.producers[p].items|
    ensures Goes(anchor, r, sts, r') && OnlyBy(p, sts) && Plain(sts)
    ensures var x := r.producers[p]; Committed(p, r, x.s, x.s + |x.items|, r')
    decreases |r.producers[p].items| - r.producers[p].k, !r.producers[p].torn
  {
    var x := r.producers[p];
    var st := if x.k == |x.items| then StartCommit(p) else if x.torn then EndWrite(p) else BeginWrite(p);
    var m := After(r, st);
    if x.k == |x.items| { sts, r' := Commits(anchor, m, p); } else { sts, r' := Writes(anchor, m, p); }
    GoesFirst(anchor, r, st, m, sts, r');
    sts := [st] + sts;
  }

  // ---- a producer's scan ----------------------------------------------------------------------

  /** None of the first `n` cursors is below that of consumer `best`. */
  ghost predicate Lowest(r: Ring, best: nat, n: nat)
  {
    best < |r.consumers| && forall c :: 0 <= c < n && c < |r.consumers| ==> !Below(r.consumers[c].cursor, r.consumers[best].cursor)
  }

  /** The smallest cursor leaves room exactly if every live one does. */
  lemma LowestDecides(r: Ring, best: nat, s: nat, n: nat)
    requires Lowest(r, best, |r.consumers|)
    ensures Fits(r.cap, s, n, r.consumers[best].cursor) <==> Clear(r, s + n)
  {
    if Fits(r.cap, s, n, r.consumers[best].cursor) {
      forall c | 0 <= c < |r.consumers| && r.consumers[c].cursor.Live? ensures s + n <= r.cap + r.consumers[c].cursor.pos {
        assert !Below(r.consumers[c].cursor, r.consumers[best].cursor);
      }
    }
  }

  /** Producer `p` of `r` as `x`. */
  function With(r: Ring, p: nat, x: Producer): Ring
    requires p < |r.producers|
  {
    r.(producers := r.producers[p := x])
  }

  predicate StillScans(x: Producer, x': Producer)
    requires x.Scan?
  {
    x'.Scan? && x'.items == x.items && x'.s == x.s && x'.claimed == x.claimed
  }

  /** The scan reads one more cursor. */
  lemma ScansOne(anchor: nat, r: Ring, p: nat) returns (sts: seq<Step>, x': Producer)
    requires |r.slots| > 0 && p < |r.producers| && r.producers[p].Scan? && r.producers[p].held == None
    requires var x := r.producers[p]; x.i < |r.consumers| && x.best < |r.consumers|
    ensures Goes(anchor, r, sts, With(r, p, x')) && OnlyBy(p, sts) && Plain(sts)
    ensures var x := r.producers[p];
      && StillScans(x, x') && x'.i == x.i + 1 && x'.held == None
      && x'.best < |r.consumers| && (Lowest(r, x.best, x.i) ==> Lowest(r, x'.best, x.i + 1))
  {
    var m1 := After(r, LoadCandidate(p));
    var m2 := After(m1, Compare(p));
    x' := m2.producers[p];
    assert m2 == With(r, p, x');
    LeadsByOne(RingStep(anchor), m1, Compare(p), m2);
    GoesFirst(anchor, r, LoadCandidate(p), m1, [Compare(p)], m2);
    sts := [LoadCandidate(p)] + [Compare(p)];
  }

  /** And all that are left; if those read so far were compared rightly, it ends with the smallest. */
  lemma {:induction false} Scans(anchor: nat, r: Ring, p: nat) returns (sts: seq<Step>, x': Producer)
    requires |r.slots| > 0 && p < |r.producers| && r.producers[p].Scan? && r.producers[p].held == None
    requires r.producers[p].best < |r.consumers|
    ensures Goes(anchor, r, sts, With(r, p, x')) && OnlyBy(p, sts) && Plain(sts)
    ensures var x := r.producers[p];
      && StillScans(x, x') && x'.i >= |r.consumers| && x'.held == None
      && x'.best < |r.consumers| && (Lowest(r, x.best, x.i) ==> Lowest(r, x'.best, |r.consumers|))
    decreases |r.consumers| - r.producers[p].i
  {
    var x := r.producers[p];
    if x.i >= |r.consumers| {
      sts, x' := [], x;
      assert With(r, p, x) == r;
    } else {
      var first, x1 := ScansOne(anchor, r, p);
      var more;
      more, x' := Scans(anchor, With(r, p, x1), p);
      assert With(With(r, p, x1), p, x') == With(r, p, x');
      GoesOn(anchor, r, first, With(r, p, x1), more, With(r, p, x'));
      sts := first + more;
    }
  }

  // ---- putting --------------------------------------------------------------------------------

  /** Every scan is at a consumer there is. */
  ghost predicate ScansInRange(r: Ring)
  {
    r.consumers != [] && forall p :: 0 <= p < |r.producers| && r.producers[p].Scan? ==>
      r.producers[p].best < |r.consumers| && (r.producers[p].held.Some? ==> r.producers[p].i < |r.consumers|)
  }

  lemma ScansStayInRange(anchor: nat, rs: seq<Ring>, sts: seq<Step>, i: nat)
    requires Run(anchor, rs, sts) && i < |rs|
    ensures ScansInRange(rs[i])
  {
    var good := (r: Ring) => ScansInRange(r);
    forall j, k | 0 <= j && j + 1 == k < |rs| && good(rs[j]) ensures good(rs[k]) {
      assert Next(anchor, rs[j], sts[j], rs[k]);
    }
    Induct(rs, good, i);
  }

  /** A claim whose slots every live consumer has left is let in at the end of its scan. */
  lemma LetIn(anchor: nat, r: Ring, p: nat) returns (sts: seq<Step>, r': Ring)
    requires Inv(anchor, r) && p < |r.producers| && r.producers[p].Scan? && r.producers[p].claimed && r.producers[p].held == None
    requires var x := r.producers[p]; x.best < |r.consumers| && x.i >= |r.consumers| && Clear(r, x.s + |x.items|)
    ensures Goes(anchor, r, sts, r') && OnlyBy(p, sts) && Inv(anchor, r')
    ensures var x := r.producers[p]; Committed(p, r, x.s, x.s + |x.items|, r')
  {
    var m := After(r, Decide(p));
    StepKeeps(anchor, r, Decide(p), m);
    var more;
    more, r' := Writes(anchor, m, p);
    PlainKeeps(anchor, m, more, r');
    GoesFirst(anchor, r, Decide(p), m, more, r');
    sts := [Decide(p)] + more;
  }

  /** The producer has a claim: its scan after it is under way, or it is writing, or committing. */
  predicate HasClaim(x: Producer) { (x.Scan? && x.claimed) || x.Writing? || x.Committing? }

  /** What is left of it: where it starts and ends. */
  function ClaimLo(x: Producer): nat
    requires HasClaim(x)
  {
    if x.Committing? then x.s + x.k else x.s
  }

  /** Finishing the scan under way, whatever it has read. */
  lemma EndsScan(anchor: nat, r: Ring, p: nat) returns (sts: seq<Step>, x': Producer)
    requires |r.slots| > 0 && ScansInRange(r) && p < |r.producers| && r.producers[p].Scan?
    ensures Goes(anchor, r, sts, With(r, p, x')) && OnlyBy(p, sts) && Plain(sts)
    ensures StillScans(r.producers[p], x') && x'.held == None && x'.best < |r.consumers| && x'.i >= |r.consumers|
  {
    if r.producers[p].held == None {
      sts, x' := Scans(anchor, r, p);
    } else {
      var m := After(r, Compare(p));
      sts, x' := Scans(anchor, m, p);
      assert With(m, p, x') == With(r, p, x');
      GoesFirst(anchor, r, Compare(p), m, sts, With(r, p, x'));
      sts := [Compare(p)] + sts;
    }
  }

  /**
   * No put is stuck: at any moment of a run in which producers are let in only when their slots are left, a producer
   * that has claimed, wherever it is, completes its put by its own steps if every live consumer has left its slots.
   */
  lemma NoPutIsStuck(anchor: nat, rs: seq<Ring>, sts: seq<Step>, i: nat, p: nat) returns (more: seq<Step>, r': Ring)
    requires Run(anchor, rs, sts) && ClearRun(rs, sts) && i < |rs| && p < |rs[i].producers| && HasClaim(rs[i].producers[p])
    requires var x := rs[i].producers[p]; Clear(rs[i], x.s + |x.items|)
    ensures Goes(anchor, rs[i], more, r') && OnlyBy(p, more)
    ensures var x := rs[i].producers[p]; Committed(p, rs[i], ClaimLo(x), x.s + |x.items|, r')
  {
    Reachable(anchor, rs, sts, i);
    ScansStayInRange(anchor, rs, sts, i);
    more, r' := PutGoesOn(anchor, rs[i], p);
  }

  lemma PutGoesOn(anchor: nat, r: Ring, p: nat) returns (sts: seq<Step>, r': Ring)
    requires Inv(anchor, r) && ScansInRange(r) && p < |r.producers| && HasClaim(r.producers[p])
    requires var x := r.producers[p]; Clear(r, x.s + |x.items|)
    ensures Goes(anchor, r, sts, r') && OnlyBy(p, sts) && Inv(anchor, r')
    ensures var x := r.producers[p]; Committed(p, r, ClaimLo(x), x.s + |x.items|, r')
  {
    assert ProducerOk(r, r.producers[p]);
    match r.producers[p]
    case Writing(_, _, _, _) => sts, r' := Writes(anchor, r, p); PlainKeeps(anchor, r, sts, r');
    case Committing(_, _, _) => sts, r' := Commits(anchor, r, p); PlainKeeps(anchor, r, sts, r');
    case Scan(_, _, _, _, _, _, _) =>
      var first, x' := EndsScan(anchor, r, p);
      var m := With(r, p, x');
      PlainKeeps(anchor, r, first, m);
      var more;
      more, r' := LetIn(anchor, m, p);
      GoesOn(anchor, r, first, m, more, r');
      sts := first + more;
  }

  // ---- trying ---------------------------------------------------------------------------------

  /** `items` are put behind everything claimed. */
  ghost predicate PutBy(p: nat, r: Ring, items: seq<int>, r': Ring)
  {
    && OthersSame(p, r, r') && p < |r'.producers| && r'.producers[p] == Idle && r'.log == r.log + items
    && forall u: nat :: u in r'.done <==> u in r.done || |r.log| <= u < |r.log| + |items|
  }

  /** At the end of the scan of a try, with room: it is let in, and puts. */
  lemma TryWins(anchor: nat, r: Ring, p: nat) returns (sts: seq<Step>, r': Ring)
    requires Inv(anchor, r) && p < |r.producers| && r.producers[p].Scan? && !r.producers[p].claimed && r.producers[p].held == None
    requires var x := r.producers[p]; x.best < |r.consumers| && x.i >= |r.consumers| && x.s == |r.log| && Clear(r, x.s + |x.items|)
    ensures Goes(anchor, r, sts, r') && OnlyBy(p, sts) && PutBy(p, r, r.producers[p].items, r') && Inv(anchor, r')
  {
    var m := After(r, Decide(p));
    StepKeeps(anchor, r, Decide(p), m);
    var w := After(m, CasOk(p));
    StepKeeps(anchor, m, CasOk(p), w);
    var more;
    more, r' := Writes(anchor, w, p);
    PlainKeeps(anchor, w, more, r');
    GoesFirst(anchor, m, CasOk(p), w, more, r');
    GoesFirst(anchor, r, Decide(p), m, [CasOk(p)] + more, r');
    sts := [Decide(p)] + ([CasOk(p)] + more);
  }

  /** Without room it gives up. */
  lemma TryLoses(anchor: nat, r: Ring, p: nat)
    requires |r.slots| > 0 && p < |r.producers| && r.producers[p].Scan? && !r.producers[p].claimed && r.producers[p].held == None
    requires var x := r.producers[p]; x.i >= |r.consumers| && Lowest(r, x.best, |r.consumers|) && !Clear(r, x.s + |x.items|)
    ensures Goes(anchor, r, [Decide(p)], With(r, p, Idle))
  {
    var x := r.producers[p];
    LowestDecides(r, x.best, x.s, |x.items|);
    LeadsByOne(RingStep(anchor), r, Decide(p), With(r, p, Idle));
  }

  /** The rest of an undisturbed try, from the start of its scan. */
  lemma EndsTry(anchor: nat, r: Ring, p: nat) returns (sts: seq<Step>, r': Ring)
    requires Inv(anchor, r) && p < |r.producers| && r.producers[p].Scan? && !r.producers[p].claimed && r.producers[p].held == None
    requires var x := r.producers[p]; x.s == |r.log| && Lowest(r, x.best, x.i)
    ensures Goes(anchor, r, sts, r') && OnlyBy(p, sts)
    ensures var items := r.producers[p].items;
            if Clear(r, |r.log| + |items|) then PutBy(p, r, items, r') && Inv(anchor, r') else r' == With(r, p, Idle)
  {
    var first, x' := Scans(anchor, r, p);
    var m, more := With(r, p, x'), [];
    if Clear(r, |r.log| + |x'.items|) {
      PlainKeeps(anchor, r, first, m);
      more, r' := TryWins(anchor, m, p);
    } else {
      TryLoses(anchor, m, p);
      more, r' := [Decide(p)], With(m, p, Idle);
    }
    GoesOn(anchor, r, first, m, more, r');
    sts := first + more;
  }

  /**
   * An undisturbed try succeeds exactly if every live consumer has left the slots: then the items are put, else nothing
   * has changed.
   */
  lemma TryAlone(anchor: nat, r: Ring, p: nat, items: seq<int>) returns (sts: seq<Step>, r': Ring)
    requires Inv(anchor, r) && p < |r.producers| && r.producers[p] == Idle && 1 <= |items| <= r.cap
    ensures Goes(anchor, r, [TryClaim(p, items)] + sts, r') && OnlyBy(p, sts)
    ensures if Clear(r, |r.log| + |items|) then PutBy(p, r, items, r') && Inv(anchor, r') else r' == r
  {
    var m := After(r, TryClaim(p, items));
    StepKeeps(anchor, r, TryClaim(p, items), m);
    sts, r' := EndsTry(anchor, m, p);
    assert With(m, p, Idle) == r;
    GoesFirst(anchor, r, TryClaim(p, items), m, sts, r');
  }

  /** A try whose compare-and-swap fails, even for no reason, starts over: undisturbed, it still succeeds exactly with room. */
  lemma FailedSwapTriesAgain(anchor: nat, r: Ring, p: nat) returns (sts: seq<Step>, r': Ring)
    requires Inv(anchor, r) && p < |r.producers| && r.producers[p].Cas?
    ensures Goes(anchor, r, [CasFail(p)] + sts, r') && OnlyBy(p, sts)
    ensures var items := r.producers[p].items;
            if Clear(r, |r.log| + |items|) then PutBy(p, r, items, r') && Inv(anchor, r') else r' == With(r, p, Idle)
  {
    var m := After(r, CasFail(p));
    StepKeeps(anchor, r, CasFail(p), m);
    sts, r' := EndsTry(anchor, m, p);
    assert With(m, p, Idle) == With(r, p, Idle);
    GoesFirst(anchor, r, CasFail(p), m, sts, r');
  }

  // ---- consumers ------------------------------------------------------------------------------

  /** Consumer `c` of `r` as `y`. */
  function WithConsumer(r: Ring, c: nat, y: Consumer): Ring
    requires c < |r.consumers|
  {
    r.(consumers := r.consumers[c := y])
  }

  lemma {:induction false} Peeks(anchor: nat, r: Ring, c: nat, u: nat) returns (sts: seq<Step>)
    requires |r.slots| > 0 && c < |r.consumers| && r.consumers[c].cursor.Live? && r.consumers[c].end <= u
    requires forall t: nat :: r.consumers[c].end <= t < u ==> Holds(r, t)
    ensures Goes(anchor, r, sts, WithConsumer(r, c, r.consumers[c].(end := u))) && OnlyTo(c, sts)
    decreases u - r.consumers[c].end
  {
    var y := r.consumers[c];
    var r' := WithConsumer(r, c, y.(end := u));
    if y.end == u {
      sts := [];
      assert r' == r;
    } else {
      var m := WithConsumer(r, c, y.(end := y.end + 1));
      assert Holds(r, y.end);
      forall t: nat | y.end + 1 <= t < u ensures Holds(m, t) { assert Holds(r, t); }
      sts := Peeks(anchor, m, c, u);
      assert WithConsumer(m, c, m.consumers[c].(end := u)) == r';
      GoesFirst(anchor, r, PeekOne(c), m, sts, r');
      sts := [PeekOne(c)] + sts;
    }
  }

  lemma {:induction false} Reads(anchor: nat, r: Ring, c: nat) returns (sts: seq<Step>, y': Consumer)
    requires |r.slots| > 0 && c < |r.consumers| && r.consumers[c].cursor.Live? && r.consumers[c].next <= r.consumers[c].end
    ensures Goes(anchor, r, sts, WithConsumer(r, c, y')) && OnlyTo(c, sts)
    ensures y' == r.consumers[c].(next := r.consumers[c].end, got := y'.got)
    decreases r.consumers[c].end - r.consumers[c].next
  {
    var y := r.consumers[c];
    if y.next == y.end {
      sts, y' := [], y;
      assert WithConsumer(r, c, y) == r;
    } else {
      var m := WithConsumer(r, c, ConsumerMove(r, anchor, Read(c)));
      sts, y' := Reads(anchor, m, c);
      assert WithConsumer(m, c, y') == WithConsumer(r, c, y');
      GoesFirst(anchor, r, Read(c), m, sts, WithConsumer(r, c, y'));
      sts := [Read(c)] + sts;
    }
  }

  /**
   * A live consumer behind what is committed, up to `u`, gets everything up to there by its own steps, as it was put, and
   * gives it back.
   */
  lemma CatchesUp(anchor: nat, r: Ring, c: nat, u: nat) returns (sts: seq<Step>, r': Ring)
    requires Inv(anchor, r) && c < |r.consumers| && r.consumers[c].cursor.Live? && r.consumers[c].end <= u
    requires forall t: nat :: r.consumers[c].end <= t < u ==> t in r.done
    ensures Goes(anchor, r, sts, r') && OnlyTo(c, sts) && Inv(anchor, r') && r.consumers[c].start <= u <= |r.log|
    ensures var y := r.consumers[c]; r' == WithConsumer(r, c, Consumer(Live(u), u, u, y.start, r.log[y.start..u]))
  {
    var y := r.consumers[c];
    assert ConsumerOk(r, y);
    var a := Peeks(anchor, r, c, u);
    var m1 := WithConsumer(r, c, y.(end := u));
    var b, y2 := Reads(anchor, m1, c);
    var m2 := WithConsumer(m1, c, y2);
    r' := WithConsumer(m2, c, y2.(cursor := Live(u)));
    LeadsByOne(RingStep(anchor), m2, Waste(c, u - y.cursor.pos), r');
    GoesOn(anchor, r, a, m1, b, m2);
    GoesOn(anchor, r, a + b, m2, [Waste(c, u - y.cursor.pos)], r');
    sts := a + b + [Waste(c, u - y.cursor.pos)];
    PlainKeeps(anchor, r, sts, r');
    assert ConsumerOk(r', r'.consumers[c]);
  }

  /** At any moment of a run in which producers are let in only when their slots are left. */
  lemma CommittedCanBeRead(anchor: nat, rs: seq<Ring>, sts: seq<Step>, i: nat, c: nat, u: nat) returns (more: seq<Step>, r': Ring)
    requires Run(anchor, rs, sts) && ClearRun(rs, sts) && i < |rs| && c < |rs[i].consumers| && rs[i].consumers[c].cursor.Live?
    requires rs[i].consumers[c].end <= u && forall t: nat :: rs[i].consumers[c].end <= t < u ==> t in rs[i].done
    ensures Goes(anchor, rs[i], more, r') && OnlyTo(c, more) && rs[i].consumers[c].start <= u <= |rs[i].log|
    ensures var y := rs[i].consumers[c]; r' == WithConsumer(rs[i], c, Consumer(Live(u), u, u, y.start, rs[i].log[y.start..u]))
  {
    Reachable(anchor, rs, sts, i);
    more, r' := CatchesUp(anchor, rs[i], c, u);
  }

  /** The consumers, from the `k`-th on those marked dead that have not left the slots before `v`. */
  lemma {:induction false} Kills(anchor: nat, r: Ring, v: nat, k: nat) returns (sts: seq<Step>, r': Ring)
    requires Inv(anchor, r) && v <= r.cap + r.consumers[anchor].cursor.pos && k <= |r.consumers|
    requires forall c :: 0 <= c < k && r.consumers[c].cursor.Live? ==> v <= r.cap + r.consumers[c].cursor.pos
    ensures Goes(anchor, r, sts, r') && Inv(anchor, r') && Clear(r', v) && r' == r.(consumers := r'.consumers)
    ensures |r'.consumers| == |r.consumers| && forall c :: 0 <= c < |r.consumers| ==>
              r'.consumers[c] == if r.consumers[c].cursor.Live? && r.cap + r.consumers[c].cursor.pos < v then r.consumers[c].(cursor := Dead) else r.consumers[c]
    decreases |r.consumers| - k
  {
    if k == |r.consumers| {
      sts, r' := [], r;
    } else if r.consumers[k].cursor.Live? && r.cap + r.consumers[k].cursor.pos < v {
      var m := WithConsumer(r, k, r.consumers[k].(cursor := Dead));
      StepKeeps(anchor, r, MarkDead(k), m);
      sts, r' := Kills(anchor, m, v, k + 1);
      GoesFirst(anchor, r, MarkDead(k), m, sts, r');
      sts := [MarkDead(k)] + sts;
    } else {
      sts, r' := Kills(anchor, r, v, k + 1);
    }
  }

  /**
   * A put that kills completes whatever other consumers do not do: once the live consumers that have not left its slots
   * are marked dead, the producer goes on by itself; the others are left alone. Only the consumer that stays must have
   * left them.
   */
  lemma KillingPutCompletes(anchor: nat, rs: seq<Ring>, sts: seq<Step>, i: nat, p: nat) returns (more: seq<Step>, m: Ring, r': Ring)
    requires Run(anchor, rs, sts) && ClearRun(rs, sts) && i < |rs| && p < |rs[i].producers| && HasClaim(rs[i].producers[p])
    requires anchor < |rs[i].consumers| && rs[i].consumers[anchor].cursor.Live?
    requires var x := rs[i].producers[p]; x.s + |x.items| <= rs[i].cap + rs[i].consumers[anchor].cursor.pos
    ensures Goes(anchor, rs[i], more, r')
    ensures var x := rs[i].producers[p]; Committed(p, m, ClaimLo(x), x.s + |x.items|, r') && m == rs[i].(consumers := m.consumers)
    ensures var r, v := rs[i], rs[i].producers[p].s + |rs[i].producers[p].items|;
      |m.consumers| == |r.consumers| && forall c :: 0 <= c < |r.consumers| ==>
        m.consumers[c] == if r.consumers[c].cursor.Live? && r.cap + r.consumers[c].cursor.pos < v then r.consumers[c].(cursor := Dead) else r.consumers[c]
  {
    Reachable(anchor, rs, sts, i);
    ScansStayInRange(anchor, rs, sts, i);
    var x := rs[i].producers[p];
    var kills, puts;
    kills, m := Kills(anchor, rs[i], x.s + |x.items|, 0);
    puts, r' := PutGoesOn(anchor, m, p);
    GoesOn(anchor, rs[i], kills, m, puts, r');
    more := kills + puts;
  }

  /** A newcomer gets exactly what is put after it joined. */
  lemma NewcomerGetsWhatFollows(anchor: nat, r: Ring, c: nat, p: nat, items: seq<int>) returns (sts: seq<Step>, r': Ring)
    requires Inv(anchor, r) && c < |r.consumers| && r.consumers[c].cursor == Dead
    requires p < |r.producers| && r.producers[p] == Idle && 1 <= |items| <= r.cap && Clear(r, |r.log| + |items|)
    ensures Goes(anchor, r, sts, r') && Inv(anchor, r')
    ensures c < |r'.consumers| && r'.consumers[c].cursor.Live? && r'.consumers[c].got == items && r'.log == r.log + items
  {
    var m := WithConsumer(r, c, ConsumerMove(r, anchor, Join(c)));
    StepKeeps(anchor, r, Join(c), m);
    var puts, w := TryAlone(anchor, m, p, items);
    var takes;
    takes, r' := CatchesUp(anchor, w, c, |r.log| + |items|);
    GoesOn(anchor, m, [TryClaim(p, items)] + puts, w, takes, r');
    sts := [TryClaim(p, items)] + puts + takes;
    GoesFirst(anchor, r, Join(c), m, sts, r');
    sts := [Join(c)] + sts;
    assert (r.log + items)[|r.log|..|r.log| + |items|] == items;
  }
}
