/**
 * The thread-safe operator of hmbdc/pattern/SeqArb.hpp (lines 64-90, 145-150): one thread per participant,
 * every read, write and compare-and-swap of `seq_` and `j_[]` a step of its own.
 */
module SeqArbThreads {
  import opened Common
  import SeqArb

  datatype Event = Hit(part: nat, at: nat) | Gap(b: nat, e: nat)

  /** `InHit` and `InGap` are inside the callbacks. */
  datatype Thread =
    | Idle(settled: bool)
    | Stored(s: nat)
    | InHit(s: nat)
    | Scan(s: nat, seen: nat, k: nat, low: nat)
    | Checked(s: nat, seen: nat, low: nat)
    | InGap(s: nat, seen: nat, low: nat)

  /** `line[i]` lists everything participant i presented, `events` every callback in the order it began. */
  datatype State = State(start: nat, expecting: nat, j: seq<nat>, threads: seq<Thread>,
                         line: seq<seq<nat>>, events: seq<Event>)

  datatype Op = Present(s: nat) | Cas | Read | Check | CasGap | EndHit | EndGap

  datatype Step = Step(i: nat, op: Op)

  predicate Enabled(m: State, i: nat, op: Op)
  {
    && i < |m.threads| && i < |m.j| && i < |m.line|
    && var t := m.threads[i];
       match op
       case Present(s) => t.Idle?
       case Cas => t.Stored?
       case Read => t.Scan? && t.k < |m.j|
       case Check => t.Scan? && t.k == |m.j|
       case CasGap => t.Checked?
       case EndHit => t.InHit?
       case EndGap => t.InGap?
  }

  function Move(m: State, i: nat, op: Op): Thread
    requires Enabled(m, i, op)
  {
    var t := m.threads[i];
    match op
    case Present(s) => Stored(s)
    case Cas =>
      if m.expecting == t.s then InHit(t.s)
      else if m.expecting == SEQ_MAX then Idle(false)
      else if t.s < m.expecting then Idle(true)
      else Scan(t.s, m.expecting, 0, 0)
    case Read => Scan(t.s, t.seen, t.k + 1, if t.k == 0 || t.low > m.j[t.k] then m.j[t.k] else t.low)
    case Check => if t.low > t.seen && m.expecting == t.seen then Checked(t.s, t.seen, t.low) else Idle(false)
    case CasGap => if m.expecting == t.seen then InGap(t.s, t.seen, t.low) else Idle(false)
    case EndHit => Idle(true)
    case EndGap => Idle(false)
  }

  function Effect(m: State, i: nat, op: Op): State
    requires Enabled(m, i, op)
  {
    var t := m.threads[i];
    match op
    case Present(s) => m.(j := m.j[i := s], line := m.line[i := m.line[i] + [s]])
    case Cas => if m.expecting == t.s then m.(expecting := SEQ_MAX, events := m.events + [Hit(i, t.s)]) else m
    case CasGap => if m.expecting == t.seen then m.(expecting := SEQ_MAX, events := m.events + [Gap(t.seen, t.low)]) else m
    case EndHit => m.(expecting := SeqArb.Next(t.s))
    case EndGap => m.(expecting := t.low)
    case _ => m
  }

  function Do(m: State, st: Step): State
    requires Enabled(m, st.i, st.op)
  {
    Effect(m, st.i, st.op).(threads := m.threads[st.i := Move(m, st.i, st.op)])
  }

  predicate Initial(m: State, n: nat)
  {
    && m.start < SEQ_MAX && m.expecting == m.start && m.events == []
    && m.j == seq(n, _ => 0) && m.threads == seq(n, _ => Idle(true)) && m.line == seq(n, _ => [])
  }

  /** A run of `n` participants that present nothing above `limit`. */
  ghost predicate Run(ms: seq<State>, sts: seq<Step>, n: nat, limit: nat)
  {
    && |ms| == |sts| + 1 && Initial(ms[0], n)
    && (forall i :: 0 <= i < |sts| ==> Enabled(ms[i], sts[i].i, sts[i].op) && ms[i + 1] == Do(ms[i], sts[i]))
    && (forall i :: 0 <= i < |sts| && sts[i].op.Present? ==> sts[i].op.s <= limit)
  }

  /** Each participant presents increasing sequences and presents an undecided one again. */
  predicate Orderly(m: State, st: Step)
    requires Enabled(m, st.i, st.op)
  {
    st.op.Present? && m.line[st.i] != [] ==>
      var last := m.line[st.i][|m.line[st.i]| - 1];
      if m.threads[st.i].settled then st.op.s > last else st.op.s == last
  }

  ghost predicate OrderlyRun(ms: seq<State>, sts: seq<Step>)
  {
    forall i :: 0 <= i < |sts| && i < |ms| && Enabled(ms[i], sts[i].i, sts[i].op) ==> Orderly(ms[i], sts[i])
  }

  // ---- exclusion and the partition ------------------------------------------------------------

  predicate Inside(t: Thread) { t.InHit? || t.InGap? }

  ghost predicate Exclusive(m: State)
  {
    forall a, b :: 0 <= a < |m.threads| && 0 <= b < |m.threads| && Inside(m.threads[a]) && Inside(m.threads[b]) ==> a == b
  }

  /** The callbacks, in order, split [from, upto). */
  ghost predicate Chain(events: seq<Event>, from: nat, upto: nat)
  {
    if events == [] then from == upto
    else
      match events[|events| - 1]
      case Hit(_, at) => upto == at + 1 && Chain(events[..|events| - 1], from, at)
      case Gap(b, e) => b < e == upto && Chain(events[..|events| - 1], from, b)
  }

  /** How many callbacks account for `u`. */
  function Accounts(events: seq<Event>, u: nat): nat
  {
    if events == [] then 0
    else Accounts(events[..|events| - 1], u) +
         match events[|events| - 1]
         case Hit(_, at) => if at == u then 1 else 0
         case Gap(b, e) => if b <= u < e then 1 else 0
  }

  lemma {:induction false} ChainAccountsOnce(events: seq<Event>, from: nat, upto: nat, u: nat)
    requires Chain(events, from, upto)
    ensures from <= upto && Accounts(events, u) == if from <= u < upto then 1 else 0
    decreases |events|
  {
    if events != [] {
      match events[|events| - 1]
      case Hit(_, at) => ChainAccountsOnce(events[..|events| - 1], from, at, u);
      case Gap(b, e) => ChainAccountsOnce(events[..|events| - 1], from, b, u);
    }
  }

  /** Where the arbiter stands, counting the callback in progress. */
  function End(m: State): nat
  {
    if m.events == [] then m.start
    else match m.events[|m.events| - 1]
         case Hit(_, at) => at + 1
         case Gap(_, e) => e
  }

  predicate ThreadOk(m: State, t: Thread)
  {
    match t
    case Stored(s) => s < SEQ_MAX
    case InHit(s) => s < SEQ_MAX && m.expecting == SEQ_MAX && End(m) == s + 1
    case Scan(s, seen, k, low) => seen < SEQ_MAX && k <= |m.j| && low < SEQ_MAX
    case Checked(s, seen, low) => seen < low < SEQ_MAX
    case InGap(s, seen, low) => seen < low < SEQ_MAX && m.expecting == SEQ_MAX && End(m) == low
    case _ => true
  }

  ghost predicate Inv(m: State)
  {
    && |m.j| == |m.threads| == |m.line|
    && (forall i :: 0 <= i < |m.j| ==> m.j[i] < SEQ_MAX)
    && (forall i :: 0 <= i < |m.threads| ==> ThreadOk(m, m.threads[i]))
    && Exclusive(m)
    && Chain(m.events, m.start, End(m)) && End(m) <= SEQ_MAX
    && ((forall i :: 0 <= i < |m.threads| ==> !Inside(m.threads[i])) ==> m.expecting == End(m))
  }

  lemma EventAdded(m: State, e: Event)
    requires Chain(m.events, m.start, End(m))
    requires match e case Hit(_, at) => at == End(m) case Gap(b, u) => b == End(m) && b < u
    ensures var m' := m.(expecting := SEQ_MAX, events := m.events + [e]);
            && Chain(m'.events, m'.start, End(m'))
            && End(m') == match e case Hit(_, at) => at + 1 case Gap(_, u) => u
  {
    assert (m.events + [e])[..|m.events|] == m.events;
  }

  /** A thread is inside a callback only while `expecting` is the sentinel. */
  lemma FreeWhenExpecting(m: State)
    requires Inv(m) && m.expecting != SEQ_MAX
    ensures forall i :: 0 <= i < |m.threads| ==> !Inside(m.threads[i])
    ensures m.expecting == End(m)
  {
    forall i | 0 <= i < |m.threads| ensures !Inside(m.threads[i]) { assert ThreadOk(m, m.threads[i]); }
  }

  predicate Enters(m: State, st: Step)
    requires Enabled(m, st.i, st.op)
  {
    (st.op.Cas? && m.expecting == m.threads[st.i].s) || (st.op.CasGap? && m.expecting == m.threads[st.i].seen)
  }

  /** Nobody was inside: the thread enters alone. */
  lemma EnterKeeps(m: State, st: Step)
    requires Inv(m) && Enabled(m, st.i, st.op) && Enters(m, st)
    ensures Inv(Do(m, st))
  {
    var t, m' := m.threads[st.i], Do(m, st);
    assert ThreadOk(m, t);
    FreeWhenExpecting(m);
    EventAdded(m, if st.op.Cas? then Hit(st.i, t.s) else Gap(t.seen, t.low));
    assert Inside(m'.threads[st.i]);
    forall i | 0 <= i < |m'.threads| ensures ThreadOk(m', m'.threads[i]) { assert ThreadOk(m, m.threads[i]); }
  }

  /** The only thread inside leaves and publishes the end. */
  lemma LeaveKeeps(m: State, st: Step)
    requires Inv(m) && Enabled(m, st.i, st.op) && (st.op.EndHit? || st.op.EndGap?)
    ensures Inv(Do(m, st))
  {
    var t, m' := m.threads[st.i], Do(m, st);
    assert ThreadOk(m, t);
    forall i | 0 <= i < |m'.threads| ensures ThreadOk(m', m'.threads[i]) && !Inside(m'.threads[i]) {
      assert ThreadOk(m, m.threads[i]);
      assert i != st.i ==> !Inside(m.threads[i]);
    }
  }

  lemma StayMove(m: State, st: Step)
    requires Inv(m) && Enabled(m, st.i, st.op) && (st.op.Present? ==> st.op.s < SEQ_MAX)
    requires !Enters(m, st) && !st.op.EndHit? && !st.op.EndGap?
    ensures !Inside(m.threads[st.i]) && !Inside(Do(m, st).threads[st.i])
    ensures ThreadOk(Do(m, st), Do(m, st).threads[st.i])
    ensures forall i :: 0 <= i < |m.j| ==> Do(m, st).j[i] < SEQ_MAX
  {
    assert ThreadOk(m, m.threads[st.i]);
  }

  lemma StayKeeps(m: State, st: Step)
    requires Inv(m) && Enabled(m, st.i, st.op) && (st.op.Present? ==> st.op.s < SEQ_MAX)
    requires !Enters(m, st) && !st.op.EndHit? && !st.op.EndGap?
    ensures Inv(Do(m, st))
  {
    var t, m' := m.threads[st.i], Do(m, st);
    StayMove(m, st);
    assert m'.expecting == m.expecting && m'.events == m.events && End(m') == End(m);
    forall i | 0 <= i < |m'.threads| ensures ThreadOk(m', m'.threads[i]) { assert ThreadOk(m, m.threads[i]); }
    assert forall i :: 0 <= i < |m.threads| && i != st.i ==> m.threads[i] == m'.threads[i];
    if forall i :: 0 <= i < |m'.threads| ==> !Inside(m'.threads[i]) {
      assert forall i :: 0 <= i < |m.threads| ==> !Inside(m.threads[i]);
    }
  }

  lemma StepKeeps(m: State, st: Step)
    requires Inv(m) && Enabled(m, st.i, st.op) && (st.op.Present? ==> st.op.s < SEQ_MAX)
    ensures Inv(Do(m, st))
  {
    if Enters(m, st) { EnterKeeps(m, st); }
    else if st.op.EndHit? || st.op.EndGap? { LeaveKeeps(m, st); }
    else { StayKeeps(m, st); }
  }

  lemma {:induction false} Reachable(ms: seq<State>, sts: seq<Step>, n: nat, limit: nat, i: nat)
    requires Run(ms, sts, n, limit) && limit < SEQ_MAX && i < |ms|
    ensures Inv(ms[i]) && |ms[i].threads| == n && ms[i].start == ms[0].start
  {
    if i > 0 {
      Reachable(ms, sts, n, limit, i - 1);
      assert Enabled(ms[i - 1], sts[i - 1].i, sts[i - 1].op);
      StepKeeps(ms[i - 1], sts[i - 1]);
    }
  }

  /** While only sequences below the sentinel are presented, the callbacks exclude one another ... */
  lemma CallbacksExclude(ms: seq<State>, sts: seq<Step>, n: nat, limit: nat, i: nat)
    requires Run(ms, sts, n, limit) && limit < SEQ_MAX && i < |ms|
    ensures Exclusive(ms[i])
  {
    Reachable(ms, sts, n, limit, i);
  }

  /** ... and account once for every sequence below the end, and for no other. */
  lemma CallbacksPartition(ms: seq<State>, sts: seq<Step>, n: nat, limit: nat, i: nat, u: nat)
    requires Run(ms, sts, n, limit) && limit < SEQ_MAX && i < |ms|
    ensures Accounts(ms[i].events, u) == if ms[0].start <= u < End(ms[i]) then 1 else 0
    ensures ms[i].expecting != SEQ_MAX ==> ms[i].expecting == End(ms[i])
  {
    Reachable(ms, sts, n, limit, i);
    ChainAccountsOnce(ms[i].events, ms[i].start, End(ms[i]), u);
    if ms[i].expecting != SEQ_MAX { FreeWhenExpecting(ms[i]); }
  }

  // ---- the sentinel ---------------------------------------------------------------------------

  /** Two participants, the second presenting the sentinel while the first is inside its callback. */
  function Clash(n: nat): seq<Step>
    requires n >= 2
  {
    [Step(0, Present(0)), Step(0, Cas), Step(1, Present(SEQ_MAX)), Step(1, Cas)]
  }

  function Zero(n: nat): State { State(0, 0, seq(n, _ => 0), seq(n, _ => Idle(true)), seq(n, _ => []), []) }

  lemma PresentingTheSentinelOverlaps(n: nat)
    requires n >= 2
    ensures exists ms: seq<State> :: Run(ms, Clash(n), n, SEQ_MAX) && !Exclusive(ms[4])
  {
    var m0 := Zero(n);
    var m1 := Do(m0, Clash(n)[0]);
    var m2 := Do(m1, Clash(n)[1]);
    var m3 := Do(m2, Clash(n)[2]);
    var m4 := Do(m3, Clash(n)[3]);
    assert m4.threads[0] == InHit(0) && m4.threads[1] == InHit(SEQ_MAX);
    assert Run([m0, m1, m2, m3, m4], Clash(n), n, SEQ_MAX);
  }

  ghost predicate AlwaysExclusive(n: nat, limit: nat)
  {
    forall ms: seq<State>, sts: seq<Step>, i: nat :: Run(ms, sts, n, limit) && i < |ms| ==> Exclusive(ms[i])
  }

  /** Callbacks never overlap, in any run, exactly when there is one participant or nobody presents the sentinel. */
  lemma ExclusionCondition(n: nat, limit: nat)
    requires n >= 1 && limit <= SEQ_MAX
    ensures AlwaysExclusive(n, limit) <==> n == 1 || limit < SEQ_MAX
  {
    if n >= 2 && limit == SEQ_MAX {
      PresentingTheSentinelOverlaps(n);
      var ms :| Run(ms, Clash(n), n, SEQ_MAX) && !Exclusive(ms[4]);
    } else {
      forall ms: seq<State>, sts: seq<Step>, i: nat | Run(ms, sts, n, limit) && i < |ms| ensures Exclusive(ms[i]) {
        if limit < SEQ_MAX { Reachable(ms, sts, n, limit, i); } else { SizeIsKept(ms, sts, n, limit, i); }
      }
    }
  }

  lemma {:induction false} SizeIsKept(ms: seq<State>, sts: seq<Step>, n: nat, limit: nat, i: nat)
    requires Run(ms, sts, n, limit) && i < |ms|
    ensures |ms[i].threads| == n
  {
    if i > 0 {
      SizeIsKept(ms, sts, n, limit, i - 1);
      assert ms[i - 1 + 1] == Do(ms[i - 1], sts[i - 1]);
    }
  }

  // ---- what a gap means -----------------------------------------------------------------------

  predicate Awaiting(t: Thread, last: nat) { match t case Idle(_) => true case _ => t.s == last }

  /** Everything a participant has moved past is behind the end; so is what it last presented once settled. */
  ghost predicate LineOk(line: seq<nat>, j: nat, t: Thread, end: nat)
  {
    if line == [] then j == 0 && t == Idle(true)
    else
      && j == line[|line| - 1] && Awaiting(t, j)
      && (t == Idle(true) ==> j < end)
      && forall k :: 0 <= k < |line| ==> line[k] <= j && (line[k] < j ==> line[k] < end)
  }

  /** What a scan has read so far is still a lower bound. */
  ghost predicate LowOk(j: seq<nat>, t: Thread)
  {
    match t
    case Scan(_, _, k, low) => forall p :: 0 <= p < k && p < |j| ==> low <= j[p]
    case Checked(_, _, low) => forall p :: 0 <= p < |j| ==> low <= j[p]
    case _ => true
  }

  /** The line is past the gap and presented nothing in it. */
  ghost predicate LostOn(line: seq<nat>, b: nat, e: nat)
  {
    && line != [] && line[|line| - 1] >= e
    && forall k :: 0 <= k < |line| ==> line[k] < b || line[k] >= e
  }

  ghost predicate EventOk(line: seq<seq<nat>>, ev: Event)
  {
    match ev
    case Hit(part, at) => part < |line| && at in line[part]
    case Gap(b, e) => forall p :: 0 <= p < |line| ==> LostOn(line[p], b, e)
  }

  ghost predicate Lines(m: State)
  {
    && |m.j| == |m.threads| == |m.line|
    && (forall i :: 0 <= i < |m.line| ==> LineOk(m.line[i], m.j[i], m.threads[i], End(m)))
    && (forall i :: 0 <= i < |m.threads| ==> LowOk(m.j, m.threads[i]))
    && (forall k :: 0 <= k < |m.events| ==> EventOk(m.line, m.events[k]))
  }

  lemma PresentLines(m: State, st: Step)
    requires Inv(m) && Lines(m) && Enabled(m, st.i, st.op) && Orderly(m, st) && st.op.Present?
    ensures Lines(Do(m, st))
  {
    var m', i, s := Do(m, st), st.i, st.op.s;
    assert LineOk(m.line[i], m.j[i], m.threads[i], End(m));
    assert m.j[i] <= s;
    forall q | 0 <= q < |m'.line| ensures LineOk(m'.line[q], m'.j[q], m'.threads[q], End(m')) {
      assert LineOk(m.line[q], m.j[q], m.threads[q], End(m));
    }
    forall q | 0 <= q < |m'.threads| ensures LowOk(m'.j, m'.threads[q]) { assert LowOk(m.j, m.threads[q]); }
    forall k | 0 <= k < |m'.events| ensures EventOk(m'.line, m'.events[k]) { PresentEvent(m, i, s, m.events[k]); }
  }

  lemma PresentEvent(m: State, i: nat, s: nat, ev: Event)
    requires i < |m.line| && EventOk(m.line, ev) && (m.line[i] != [] ==> s >= m.line[i][|m.line[i]| - 1])
    ensures EventOk(m.line[i := m.line[i] + [s]], ev)
  {
    var line' := m.line[i := m.line[i] + [s]];
    match ev
    case Hit(part, at) => assert at in m.line[part];
    case Gap(b, e) =>
      forall p | 0 <= p < |line'| ensures LostOn(line'[p], b, e) { assert LostOn(m.line[p], b, e); }
  }

  lemma EndNeverFalls(m: State, st: Step)
    requires Inv(m) && Enabled(m, st.i, st.op)
    ensures End(Do(m, st)) >= End(m)
  {
    assert ThreadOk(m, m.threads[st.i]);
    if Enters(m, st) { FreeWhenExpecting(m); }
  }

  lemma NewEvent(m: State, st: Step)
    requires Inv(m) && Lines(m) && Enabled(m, st.i, st.op) && Enters(m, st)
    ensures EventOk(m.line, Do(m, st).events[|m.events|])
  {
    var t := m.threads[st.i];
    assert ThreadOk(m, t);
    FreeWhenExpecting(m);
    assert LineOk(m.line[st.i], m.j[st.i], t, End(m)) && LowOk(m.j, t);
    if st.op.CasGap? {
      forall p | 0 <= p < |m.line| ensures LostOn(m.line[p], t.seen, t.low) {
        assert LineOk(m.line[p], m.j[p], m.threads[p], End(m));
      }
    }
  }

  lemma OtherLine(m: State, st: Step, q: nat)
    requires Inv(m) && Enabled(m, st.i, st.op) && !st.op.Present? && q < |m.line|
    requires LineOk(m.line[q], m.j[q], m.threads[q], End(m))
    ensures LineOk(m.line[q], m.j[q], Do(m, st).threads[q], End(Do(m, st)))
  {
    EndNeverFalls(m, st);
    assert ThreadOk(m, m.threads[st.i]);
    if st.op.Cas? && m.expecting != SEQ_MAX { FreeWhenExpecting(m); }
  }

  lemma OtherLow(m: State, st: Step)
    requires Lines(m) && Enabled(m, st.i, st.op) && !st.op.Present?
    ensures LowOk(m.j, Move(m, st.i, st.op))
  {
    assert LowOk(m.j, m.threads[st.i]);
  }

  lemma OtherLines(m: State, st: Step)
    requires Inv(m) && Lines(m) && Enabled(m, st.i, st.op) && !st.op.Present?
    ensures Lines(Do(m, st))
  {
    var m' := Do(m, st);
    if Enters(m, st) { NewEvent(m, st); }
    forall q | 0 <= q < |m'.line| ensures LineOk(m'.line[q], m'.j[q], m'.threads[q], End(m')) {
      OtherLine(m, st, q);
    }
    OtherLow(m, st);
    assert m'.j == m.j && m'.line == m.line;
    forall k | 0 <= k < |m'.events| ensures EventOk(m'.line, m'.events[k]) {
      if k < |m.events| { assert EventOk(m.line, m.events[k]); }
    }
  }

  lemma {:induction false} LinesReachable(ms: seq<State>, sts: seq<Step>, n: nat, limit: nat, i: nat)
    requires Run(ms, sts, n, limit) && limit < SEQ_MAX && OrderlyRun(ms, sts) && i < |ms|
    ensures Inv(ms[i]) && Lines(ms[i]) && |ms[i].line| == n
  {
    Reachable(ms, sts, n, limit, i);
    if i > 0 {
      LinesReachable(ms, sts, n, limit, i - 1);
      assert ms[i - 1 + 1] == Do(ms[i - 1], sts[i - 1]);
      if sts[i - 1].op.Present? { PresentLines(ms[i - 1], sts[i - 1]); } else { OtherLines(ms[i - 1], sts[i - 1]); }
    }
  }

  /** When lines only move forward and ask again, a sequence in a gap is never presented on any line, before or after. */
  lemma GapIsLostOnEveryLine(ms: seq<State>, sts: seq<Step>, n: nat, limit: nat, i: nat, k: nat, p: nat, u: nat)
    requires Run(ms, sts, n, limit) && limit < SEQ_MAX && OrderlyRun(ms, sts)
    requires i < |ms| && k < |ms[i].events| && ms[i].events[k].Gap? && p < n
    requires ms[i].events[k].b <= u < ms[i].events[k].e
    ensures p < |ms[i].line| && u !in ms[i].line[p]
  {
    LinesReachable(ms, sts, n, limit, i);
    assert EventOk(ms[i].line, ms[i].events[k]);
    assert LostOn(ms[i].line[p], ms[i].events[k].b, ms[i].events[k].e);
  }

  /** What was presented and moved past was hit, on this line or another: never skipped. */
  lemma MovedPastWasHit(ms: seq<State>, sts: seq<Step>, n: nat, limit: nat, i: nat, p: nat, k: nat)
    requires Run(ms, sts, n, limit) && limit < SEQ_MAX && OrderlyRun(ms, sts)
    requires i < |ms| && p < n && p < |ms[i].line| && k < |ms[i].line[p]|
    requires ms[i].start <= ms[i].line[p][k] && ms[i].line[p][k] < ms[i].line[p][|ms[i].line[p]| - 1]
    ensures exists h :: 0 <= h < |ms[i].events| && ms[i].events[h].Hit? && ms[i].events[h].at == ms[i].line[p][k]
  {
    LinesReachable(ms, sts, n, limit, i);
    var m, u := ms[i], ms[i].line[p][k];
    assert LineOk(m.line[p], m.j[p], m.threads[p], End(m));
    var h := Accounted(m.events, m.start, End(m), u);
    PresentedIsNoGap(m.line, m.events[h], p, k);
  }

  lemma PresentedIsNoGap(line: seq<seq<nat>>, ev: Event, p: nat, k: nat)
    requires EventOk(line, ev) && p < |line| && k < |line[p]|
    ensures ev.Gap? ==> !(ev.b <= line[p][k] < ev.e)
  {
    assert ev.Gap? ==> LostOn(line[p], ev.b, ev.e);
  }

  lemma {:induction false} Accounted(events: seq<Event>, from: nat, upto: nat, u: nat) returns (h: nat)
    requires Chain(events, from, upto) && from <= u < upto
    ensures h < |events| && match events[h] case Hit(_, at) => at == u case Gap(b, e) => b <= u < e
    decreases |events|
  {
    var last := |events| - 1;
    var b := match events[last] case Hit(_, at) => at case Gap(b, _) => b;
    if u >= b { h := last; } else { h := Accounted(events[..last], from, b, u); }
  }

  // ---- the single-threaded operator -----------------------------------------------------------

  /** The step thread `i` takes next. */
  function NextOp(m: State, i: nat): Op
    requires i < |m.threads|
  {
    match m.threads[i]
    case Stored(_) => Cas
    case InHit(_) => EndHit
    case Scan(_, _, k, _) => if k < |m.j| then Read else Check
    case Checked(_, _, _) => CasGap
    case InGap(_, _, _) => EndGap
    case Idle(_) => Cas
  }

  /** `steps` steps of thread `i` with the others standing still. */
  function Alone(m: State, i: nat, steps: nat): (m': State)
    requires i < |m.threads|
    ensures |m'.threads| == |m.threads|
    decreases steps
  {
    if steps > 0 && Enabled(m, i, NextOp(m, i)) then Alone(Do(m, Step(i, NextOp(m, i))), i, steps - 1) else m
  }

  /** Thread `i` scans, and what it has read so far has minimum `low`. */
  predicate Scanning(m: State, i: nat, s: nat, k: nat)
  {
    && |m.j| == |m.threads| == |m.line| && i < |m.threads| && k <= |m.j|
    && m.threads[i] == Scan(s, m.expecting, k, if k > 0 then SeqArb.Low(m.j[..k]) else 0)
  }

  predicate ScanEnds(m: State, i: nat, low: nat, m': State)
  {
    && |m'.threads| == |m.threads| && i < |m.threads| && m'.threads[i] == Idle(false) && m'.j == m.j
    && m'.expecting == Max(low, m.expecting)
    && m'.events == if low > m.expecting then m.events + [Gap(m.expecting, low)] else m.events
  }

  lemma ReadAlone(m: State, i: nat, s: nat, k: nat, steps: nat)
    requires Scanning(m, i, s, k) && k < |m.j| && steps > 0
    ensures var m1 := m.(threads := m.threads[i := Scan(s, m.expecting, k + 1, SeqArb.Low(m.j[..k + 1]))]);
            Scanning(m1, i, s, k + 1) && Alone(m, i, steps) == Alone(m1, i, steps - 1)
  {
    assert m.j[..k + 1][..k] == m.j[..k];
    assert NextOp(m, i) == Read && Enabled(m, i, Read);
  }

  /** Where a scan ends does not depend on how far it is. */
  lemma SameEnd(m: State, i: nat, x: Thread, low: nat, m': State)
    requires i < |m.threads| && ScanEnds(m.(threads := m.threads[i := x]), i, low, m')
    ensures ScanEnds(m, i, low, m')
  {
  }

  lemma {:induction false} ScanAlone(m: State, i: nat, s: nat, k: nat, steps: nat)
    requires Scanning(m, i, s, k) && |m.j| > 0 && steps >= |m.j| - k + 3
    ensures ScanEnds(m, i, SeqArb.Low(m.j), Alone(m, i, steps))
    decreases |m.j| - k
  {
    if k < |m.j| {
      var m1 := m.(threads := m.threads[i := Scan(s, m.expecting, k + 1, SeqArb.Low(m.j[..k + 1]))]);
      ReadAlone(m, i, s, k, steps);
      ScanAlone(m1, i, s, k + 1, steps - 1);
      SameEnd(m, i, m1.threads[i], SeqArb.Low(m.j), Alone(m1, i, steps - 1));
    } else {
      assert m.j[..k] == m.j;
      ScanDone(m, i, steps);
    }
  }

  lemma ScanDone(m: State, i: nat, steps: nat)
    requires |m.j| == |m.threads| == |m.line| && i < |m.threads| && steps >= 3
    requires m.threads[i].Scan? && m.threads[i].seen == m.expecting && m.threads[i].k == |m.j|
    ensures ScanEnds(m, i, m.threads[i].low, Alone(m, i, steps))
  {
    assert NextOp(m, i) == Check && Enabled(m, i, Check);
    CheckAlone(Do(m, Step(i, Check)), i, steps - 1);
  }

  lemma CheckAlone(m: State, i: nat, steps: nat)
    requires |m.j| == |m.threads| == |m.line| && i < |m.threads| && steps >= 2
    requires m.threads[i] == Idle(false) || (m.threads[i].Checked? && m.threads[i].seen == m.expecting)
    ensures var t, m' := m.threads[i], Alone(m, i, steps);
            if t.Idle? then m' == m
            else && m'.threads[i] == Idle(false) && m'.j == m.j && m'.expecting == t.low
                 && m'.events == m.events + [Gap(m.expecting, t.low)]
  {
    if m.threads[i].Checked? {
      var m1 := Do(m, Step(i, CasGap));
      var m2 := Do(m1, Step(i, EndGap));
      assert Alone(m, i, steps) == Alone(m1, i, steps - 1) == Alone(m2, i, steps - 2);
      assert Alone(m2, i, steps - 2) == m2;
    }
  }

  lemma HitAlone(m: State, i: nat, steps: nat)
    requires |m.j| == |m.threads| == |m.line| && i < |m.threads| && steps >= 2 && m.threads[i].InHit?
    ensures Alone(m, i, steps) == m.(expecting := SeqArb.Next(m.threads[i].s), threads := m.threads[i := Idle(true)])
  {
    var m' := Do(m, Step(i, EndHit));
    assert Alone(m, i, steps) == Alone(m', i, steps - 1) == m';
  }

  /** The state once the call has tried to take the arbiter. */
  function Asked(m: State, i: nat, s: nat): State
    requires |m.j| == |m.threads| == |m.line| && i < |m.threads| && m.threads[i].Idle?
  {
    Do(Do(m, Step(i, Present(s))), Step(i, Cas))
  }

  lemma AskedAlone(m: State, i: nat, s: nat, steps: nat)
    requires |m.j| == |m.threads| == |m.line| && i < |m.threads| && m.threads[i].Idle? && steps >= 1
    ensures Alone(Do(m, Step(i, Present(s))), i, steps) == Alone(Asked(m, i, s), i, steps - 1)
    ensures Asked(m, i, s).threads[i].Idle? ==> Alone(Asked(m, i, s), i, steps - 1) == Asked(m, i, s)
  {
    assert NextOp(Do(m, Step(i, Present(s))), i) == Cas;
  }

  predicate CanCall(m: State, i: nat)
  {
    |m.j| == |m.threads| == |m.line| && i < |m.threads| && m.threads[i].Idle?
  }

  /** `m'` is `m` after the single-threaded operator was called for participant `i` and `s`. */
  predicate Arbitrated(m: State, i: nat, s: nat, m': State)
    requires CanCall(m, i)
  {
    var o := SeqArb.Arbitrate(SeqArb.Arb(m.expecting, m.j), i, s);
    && |m'.threads| == |m.threads| && m'.threads[i] == Idle(o.code != 0)
    && m'.expecting == o.arb.expecting && m'.j == o.arb.j
    && m'.events == if o.code == 1 then m.events + [Hit(i, s)]
                    else if o.gap > 0 then m.events + [Gap(m.expecting, m.expecting + o.gap)] else m.events
  }

  lemma HitCall(m: State, i: nat, s: nat, steps: nat)
    requires CanCall(m, i) && steps >= 2 && m.expecting == s
    ensures Arbitrated(m, i, s, Alone(Asked(m, i, s), i, steps))
  {
    HitAlone(Asked(m, i, s), i, steps);
  }

  lemma ScanCall(m: State, i: nat, s: nat, steps: nat)
    requires CanCall(m, i) && steps >= |m.j| + 3 && m.expecting < s && m.expecting != SEQ_MAX
    ensures Arbitrated(m, i, s, Alone(Asked(m, i, s), i, steps))
  {
    var m2 := Asked(m, i, s);
    assert m2.threads[i] == Scan(s, m.expecting, 0, 0) && m2.expecting == m.expecting;
    ScanAlone(m2, i, s, 0, steps);
  }

  /** A call nobody disturbs does what the single-threaded operator does. */
  lemma UndisturbedCall(m: State, i: nat, s: nat, steps: nat)
    requires CanCall(m, i) && steps >= |m.j| + 4
    ensures Arbitrated(m, i, s, Alone(Do(m, Step(i, Present(s))), i, steps))
  {
    AskedAlone(m, i, s, steps);
    if m.expecting == s { HitCall(m, i, s, steps - 1); }
    else if m.expecting != SEQ_MAX && s > m.expecting { ScanCall(m, i, s, steps - 1); }
    else { assert Asked(m, i, s).threads[i].Idle?; }
  }
}
