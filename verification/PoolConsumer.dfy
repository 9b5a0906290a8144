/**
 * One interested consumer shared by the threads of a pool (hmbdc/pattern/PoolConsumer.hpp, lines 105-195).
 * Every thread walks the log with its own ring cursor (hmbdc/pattern/PoolT.ipp, `runOnceImpl`) and offers
 * each range it peeks to the consumer, whose place in the log is a single shared word.
 */
module PoolConsumer {

  /** `nextSeq_`: a sequence, or one of the three largest values. */
  datatype Next = Unset | Stop | Ignore | At(n: nat)

  /** `Handling` and `Invoking` are the consumer's code; `Gone` no longer offers it anything. */
  datatype Thread =
    | Out(cur: nat)
    | Peeked(b: nat, e: nat)
    | Taking(b: nat, e: nat, n: nat)
    | Handling(b: nat, e: nat, at: nat)
    | Invoking(b: nat, e: nat)
    | Done(b: nat, e: nat)
    | Gone

  /** `committed` bounds what can be peeked; `first` is where the consumer started, `handled` what it was given. */
  datatype State = State(next: Next, threads: seq<Thread>, committed: nat, first: nat, handled: seq<nat>, owner: nat)

  datatype Op = Commit | Peek(e: nat) | Begin | BeginThrows | Read | Cas | HandleOne | Finish | Throw | Waste

  datatype Step = Step(t: nat, op: Op)

  predicate Enabled(m: State, t: nat, op: Op)
  {
    && t < |m.threads|
    && var x := m.threads[t];
       match op
       case Commit => true
       case Peek(e) => x.Out? && x.cur <= e <= m.committed
       case Begin => x.Peeked? && m.next == Unset
       case BeginThrows => x.Peeked? && m.next == Unset
       case Read => x.Peeked? && m.next != Unset
       case Cas => x.Taking?
       case HandleOne => x.Handling? && x.at < x.e
       case Finish => (x.Handling? && x.at == x.e) || x.Invoking?
       case Throw => x.Handling? || x.Invoking?
       case Waste => x.Done?
  }

  /** The tests `handleRange` makes on the value it read. */
  function Decide(b: nat, e: nat, next: Next): Thread
  {
    match next
    case Stop => Gone
    case Ignore => Done(b, e)
    case Unset => Done(b, e)
    case At(n) =>
      if b > n then Done(b, e)
      else if e > n then Taking(b, e, n)
      else if e == n && b == n then Taking(b, e, n)
      else Done(b, e)
  }

  function Do(m: State, st: Step): State
    requires Enabled(m, st.t, st.op)
  {
    var t, x := st.t, m.threads[st.t];
    match st.op
    case Commit => m.(committed := m.committed + 1)
    case Peek(e) => m.(threads := m.threads[t := Peeked(x.cur, e)])
    case Begin => m.(next := At(x.b), first := x.b, owner := t)
    case BeginThrows => m.(next := Stop, threads := m.threads[t := Gone])
    case Read => m.(threads := m.threads[t := Decide(x.b, x.e, m.next)])
    case Cas =>
      if m.next != At(x.n) then m.(threads := m.threads[t := Done(x.b, x.e)])
      else if x.e > x.n then m.(next := Ignore, owner := t, threads := m.threads[t := Handling(x.b, x.e, x.n)])
      else m.(next := Ignore, owner := t, threads := m.threads[t := Invoking(x.b, x.e)])
    case HandleOne => m.(handled := m.handled + [x.at], threads := m.threads[t := Handling(x.b, x.e, x.at + 1)])
    case Finish => m.(next := At(x.e), threads := m.threads[t := Done(x.b, x.e)])
    case Throw => m.(next := Stop, threads := m.threads[t := Gone])
    case Waste => m.(threads := m.threads[t := Out(x.e)])
  }

  predicate Initial(m: State)
  {
    m.next == Unset && m.handled == [] && |m.threads| > 0
    && forall t :: 0 <= t < |m.threads| ==> m.threads[t].Out? && m.threads[t].cur <= m.committed
  }

  ghost predicate Run(ms: seq<State>, sts: seq<Step>)
  {
    && |ms| == |sts| + 1
    && forall i :: 0 <= i < |sts| ==> Enabled(ms[i], sts[i].t, sts[i].op) && ms[i + 1] == Do(ms[i], sts[i])
  }

  // ---- the invariant --------------------------------------------------------------------------

  predicate Inside(x: Thread) { x.Handling? || x.Invoking? }

  /** The sequence the consumer is to be given next. */
  function Place(m: State): nat { m.first + |m.handled| }

  predicate Running(m: State) { m.next.At? || m.next == Ignore }

  /** Where the thread's ring cursor stands. */
  function Cursor(x: Thread): nat { match x case Out(cur) => cur case Gone => 0 case _ => x.b }

  ghost predicate Exclusive(m: State)
  {
    forall s, t :: 0 <= s < |m.threads| && 0 <= t < |m.threads| && Inside(m.threads[s]) && Inside(m.threads[t]) ==> s == t
  }

  /** What was handled is the run of sequences from `first`. */
  ghost predicate InOrder(m: State) { forall k :: 0 <= k < |m.handled| ==> m.handled[k] == m.first + k }

  predicate ThreadOk(m: State, x: Thread)
  {
    match x
    case Out(cur) => cur <= m.committed
    case Peeked(b, e) => b <= e <= m.committed
    case Taking(b, e, n) => b <= n <= e <= m.committed && (n == e ==> b == e)
    case Handling(b, e, at) => b <= at <= e <= m.committed && at == Place(m) && m.next == Ignore
    case Invoking(b, e) => b == e == Place(m) && e <= m.committed && m.next == Ignore
    case Done(b, e) => b <= e <= m.committed
    case Gone => true
  }

  /** The last thread to have had the consumer is not past its place. */
  predicate OwnerOk(m: State)
  {
    && m.owner < |m.threads|
    && match m.threads[m.owner]
       case Out(cur) => cur <= Place(m)
       case Peeked(b, _) => b <= Place(m)
       case Taking(b, _, n) => n == Place(m)
       case Handling(_, _, _) => true
       case Invoking(_, _) => true
       case Done(_, e) => e <= Place(m)
       case Gone => false
  }

  /** Every thread still offers the consumer what it peeks. */
  ghost predicate NobodyGone(m: State) { forall t :: 0 <= t < |m.threads| ==> !m.threads[t].Gone? }

  ghost predicate Inv(m: State)
  {
    && |m.threads| > 0
    && Exclusive(m) && InOrder(m) && (m.handled != [] || Running(m) ==> Place(m) <= m.committed)
    && (forall t :: 0 <= t < |m.threads| ==> ThreadOk(m, m.threads[t]))
    && (m.next == Unset ==> m.handled == [] && forall t :: 0 <= t < |m.threads| ==> m.threads[t].Out? || m.threads[t].Peeked?)
    && (m.next.At? ==> m.next.n == Place(m))
    && (m.next.At? || m.next == Ignore ==> OwnerOk(m))
    && (m.next == Ignore ==> Inside(m.threads[m.owner]))
    && (m.next != Stop ==> NobodyGone(m))
  }

  lemma OthersOut(m: State, t: nat)
    requires Inv(m) && t < |m.threads| && (m.next != Ignore || Inside(m.threads[t]))
    ensures forall s :: 0 <= s < |m.threads| && s != t ==> !Inside(m.threads[s])
    ensures m.next != Ignore ==> !Inside(m.threads[t])
  {
    forall s | 0 <= s < |m.threads| && s != t ensures !Inside(m.threads[s]) { assert ThreadOk(m, m.threads[s]); }
    assert ThreadOk(m, m.threads[t]);
  }

  lemma OuterSteps(m: State, st: Step)
    requires Inv(m) && Enabled(m, st.t, st.op) && (st.op.Commit? || st.op.Peek? || st.op.Read? || st.op.Waste?)
    ensures Inv(Do(m, st))
  {
    var m' := Do(m, st);
    assert ThreadOk(m, m.threads[st.t]);
    OuterThreadsOk(m, st);
    assert !st.op.Commit? ==> !Inside(m'.threads[st.t]) && !Inside(m.threads[st.t]);
  }

  lemma OuterThreadsOk(m: State, st: Step)
    requires Inv(m) && Enabled(m, st.t, st.op) && (st.op.Commit? || st.op.Peek? || st.op.Read? || st.op.Waste?)
    ensures var m' := Do(m, st); forall s :: 0 <= s < |m'.threads| ==> ThreadOk(m', m'.threads[s])
  {
    var m' := Do(m, st);
    forall s | 0 <= s < |m'.threads| ensures ThreadOk(m', m'.threads[s]) { assert ThreadOk(m, m.threads[s]); }
  }

  lemma BeginSteps(m: State, st: Step)
    requires Inv(m) && Enabled(m, st.t, st.op) && (st.op.Begin? || st.op.BeginThrows?)
    ensures Inv(Do(m, st))
  {
    var m' := Do(m, st);
    forall s | 0 <= s < |m'.threads| ensures ThreadOk(m', m'.threads[s]) && !Inside(m'.threads[s]) {
      assert ThreadOk(m, m.threads[s]);
    }
  }

  lemma CasSteps(m: State, st: Step)
    requires Inv(m) && Enabled(m, st.t, st.op) && st.op.Cas?
    ensures Inv(Do(m, st))
  {
    var m', x := Do(m, st), m.threads[st.t];
    assert ThreadOk(m, x);
    if m.next == At(x.n) { OthersOut(m, st.t); }
    forall s | 0 <= s < |m'.threads| ensures ThreadOk(m', m'.threads[s]) { assert ThreadOk(m, m.threads[s]); }
  }

  lemma InnerSteps(m: State, st: Step)
    requires Inv(m) && Enabled(m, st.t, st.op) && (st.op.HandleOne? || st.op.Finish? || st.op.Throw?)
    ensures Inv(Do(m, st))
  {
    var m', x := Do(m, st), m.threads[st.t];
    assert ThreadOk(m, x);
    OthersOut(m, st.t);
    assert m.owner == st.t;
    forall s | 0 <= s < |m'.threads| ensures ThreadOk(m', m'.threads[s]) { assert ThreadOk(m, m.threads[s]); }
  }

  lemma StepKeeps(m: State, st: Step)
    requires Inv(m) && Enabled(m, st.t, st.op)
    ensures Inv(Do(m, st))
  {
    match st.op
    case Begin => BeginSteps(m, st);
    case BeginThrows => BeginSteps(m, st);
    case Cas => CasSteps(m, st);
    case HandleOne => InnerSteps(m, st);
    case Finish => InnerSteps(m, st);
    case Throw => InnerSteps(m, st);
    case _ => OuterSteps(m, st);
  }

  lemma {:induction false} Reachable(ms: seq<State>, sts: seq<Step>, i: nat)
    requires Run(ms, sts) && Initial(ms[0]) && i < |ms|
    ensures Inv(ms[i])
  {
    if i > 0 {
      Reachable(ms, sts, i - 1);
      assert ms[i - 1 + 1] == Do(ms[i - 1], sts[i - 1]);
      StepKeeps(ms[i - 1], sts[i - 1]);
    }
  }

  // ---- results --------------------------------------------------------------------------------

  /** The consumer is given one run of sequences, in order, each once, by one thread at a time. */
  lemma HandledInOrder(ms: seq<State>, sts: seq<Step>, i: nat)
    requires Run(ms, sts) && Initial(ms[0]) && i < |ms|
    ensures Exclusive(ms[i])
    ensures forall k :: 0 <= k < |ms[i].handled| ==> ms[i].handled[k] == ms[i].first + k
    ensures ms[i].next.At? ==> ms[i].next.n == Place(ms[i])
    ensures ms[i].handled != [] ==> Place(ms[i]) <= ms[i].committed
  {
    Reachable(ms, sts, i);
  }

  /** Only after the consumer has stopped does a thread no longer offer it anything. */
  lemma ThreadsServeUntilStop(ms: seq<State>, sts: seq<Step>, i: nat, t: nat)
    requires Run(ms, sts) && Initial(ms[0]) && i < |ms| && t < |ms[i].threads|
    ensures ms[i].threads[t].Gone? ==> ms[i].next == Stop
  {
    Reachable(ms, sts, i);
  }

  /** While it runs, the last thread to have had it could serve it again by itself. */
  lemma SomeThreadCanServe(ms: seq<State>, sts: seq<Step>, i: nat)
    requires Run(ms, sts) && Initial(ms[0]) && i < |ms| && Running(ms[i])
    ensures CanServe(ms[i], ms[i].owner) && !ms[i].threads[ms[i].owner].Gone? && Cursor(ms[i].threads[ms[i].owner]) <= Place(ms[i])
  {
    Reachable(ms, sts, i);
    assert ThreadOk(ms[i], ms[i].threads[ms[i].owner]);
  }

  /** Once stopped, always stopped, and nothing more is handled. */
  lemma {:induction false} NothingAfterStop(ms: seq<State>, sts: seq<Step>, i: nat, j: nat)
    requires Run(ms, sts) && Initial(ms[0]) && i <= j < |ms| && ms[i].next == Stop
    ensures ms[j].next == Stop && ms[j].handled == ms[i].handled
    ensures forall t :: 0 <= t < |ms[j].threads| ==> !Inside(ms[j].threads[t])
    decreases j
  {
    Reachable(ms, sts, j);
    if j > i {
      NothingAfterStop(ms, sts, i, j - 1);
      Reachable(ms, sts, j - 1);
      assert ms[j - 1 + 1] == Do(ms[j - 1], sts[j - 1]);
      assert sts[j - 1].t < |ms[j - 1].threads| && !Inside(ms[j - 1].threads[sts[j - 1].t]);
      assert !sts[j - 1].op.Cas? || ms[j - 1].next != At(ms[j - 1].threads[sts[j - 1].t].n);
    }
    forall t | 0 <= t < |ms[j].threads| ensures !Inside(ms[j].threads[t]) { assert ThreadOk(ms[j], ms[j].threads[t]); }
  }

  // ---- which threads can serve it -------------------------------------------------------------

  /** What the thread is about to offer, or will peek next, starts at or before the consumer's place. */
  predicate Behind(m: State, x: Thread)
  {
    match x
    case Out(cur) => cur <= Place(m)
    case Peeked(b, _) => b <= Place(m)
    case Taking(_, e, n) => n == Place(m) || e <= Place(m)
    case Handling(_, _, _) => true
    case Invoking(_, _) => true
    case Done(_, e) => e <= Place(m)
    case Gone => false
  }

  /** It is, and no other thread is inside the consumer. */
  predicate CanServe(m: State, t: nat)
  {
    t < |m.threads| && Running(m) && Behind(m, m.threads[t]) && (m.next == Ignore ==> Inside(m.threads[t]))
  }

  /** How far thread `t` is from handling the next sequence. */
  function Distance(m: State, t: nat): nat
    requires t < |m.threads|
  {
    match m.threads[t]
    case Handling(_, e, at) => if at < e then 1 else 6
    case Taking(_, e, n) => if e > n == Place(m) then 2 else 7
    case Peeked(_, e) => if e > Place(m) then 3 else 8
    case Out(_) => 4
    case Done(_, _) => 5
    case Invoking(_, _) => 6
    case Gone => 0
  }

  function NextOp(m: State, t: nat): Op
    requires t < |m.threads|
  {
    match m.threads[t]
    case Handling(_, e, at) => if at < e then HandleOne else Finish
    case Taking(_, _, _) => Cas
    case Peeked(_, _) => Read
    case Out(_) => Peek(m.committed)
    case Done(_, _) => Waste
    case Invoking(_, _) => Finish
    case Gone => Read
  }

  /** A run in which only thread `t` moves. */
  ghost predicate OwnRun(ms: seq<State>, sts: seq<Step>, m: State, t: nat)
  {
    Run(ms, sts) && ms[0] == m && forall i :: 0 <= i < |sts| ==> sts[i].t == t
  }

  lemma OwnFirst(m: State, st: Step, ms: seq<State>, sts: seq<Step>)
    requires Enabled(m, st.t, st.op) && OwnRun(ms, sts, Do(m, st), st.t)
    ensures OwnRun([m] + ms, [st] + sts, m, st.t)
  {
    var xs, ys := [m] + ms, [st] + sts;
    forall i | 0 <= i < |ys| ensures Enabled(xs[i], ys[i].t, ys[i].op) && xs[i + 1] == Do(xs[i], ys[i]) {
      if i > 0 { assert xs[i] == ms[i - 1] && xs[i + 1] == ms[i - 1 + 1] && ys[i] == sts[i - 1]; }
    }
  }

  /** One step of such a thread brings the next sequence closer, or handles it. */
  lemma OwnStep(m: State, t: nat)
    requires Inv(m) && CanServe(m, t) && Place(m) < m.committed
    ensures var op := NextOp(m, t);
            && Enabled(m, t, op)
            && var m' := Do(m, Step(t, op));
               && Inv(m') && CanServe(m', t) && m'.committed == m.committed && m'.first == m.first
               && if op.HandleOne? then m'.handled == m.handled + [Place(m)]
                  else m'.handled == m.handled && Distance(m', t) < Distance(m, t)
  {
    OwnCan(m, t);
    OwnMoves(m, t);
    StepKeeps(m, Step(t, NextOp(m, t)));
  }

  lemma OwnCan(m: State, t: nat)
    requires Inv(m) && CanServe(m, t) && Place(m) < m.committed
    ensures Enabled(m, t, NextOp(m, t))
  {
    assert ThreadOk(m, m.threads[t]);
  }

  lemma OwnMoves(m: State, t: nat)
    requires Inv(m) && CanServe(m, t) && Place(m) < m.committed && Enabled(m, t, NextOp(m, t))
    ensures var op := NextOp(m, t);
            var m' := Do(m, Step(t, op));
            && CanServe(m', t) && m'.committed == m.committed && m'.first == m.first
            && if op.HandleOne? then m'.handled == m.handled + [Place(m)]
               else m'.handled == m.handled && Distance(m', t) < Distance(m, t)
  {
    assert ThreadOk(m, m.threads[t]);
  }

  /** The thread hands the consumer the next committed sequence, whatever the other threads do not do. */
  lemma {:induction false} NextCanBeHandled(m: State, t: nat) returns (ms: seq<State>, sts: seq<Step>)
    requires Inv(m) && CanServe(m, t) && Place(m) < m.committed
    ensures OwnRun(ms, sts, m, t)
    ensures var z := ms[|sts|];
            Inv(z) && CanServe(z, t) && z.handled == m.handled + [Place(m)] && z.committed == m.committed && z.first == m.first
    decreases Distance(m, t)
  {
    OwnStep(m, t);
    var st := Step(t, NextOp(m, t));
    var m' := Do(m, st);
    if st.op.HandleOne? {
      ms, sts := [m'], [];
    } else {
      ms, sts := NextCanBeHandled(m', t);
    }
    OwnFirst(m, st, ms, sts);
    ms, sts := [m] + ms, [st] + sts;
  }

  /** The thread by itself gets the next sequence handled. */
  ghost predicate HandsOverAlone(m: State, t: nat)
  {
    exists ms: seq<State>, sts: seq<Step> :: OwnRun(ms, sts, m, t) && ms[|sts|].handled == m.handled + [Place(m)]
  }

  /** A thread that cannot serve the consumer cannot get there by itself. */
  lemma CannotStays(m: State, st: Step)
    requires Inv(m) && Running(m) && !CanServe(m, st.t) && Enabled(m, st.t, st.op)
    ensures var m' := Do(m, st); Running(m') && !CanServe(m', st.t) && m'.handled == m.handled && m'.first == m.first
  {
    assert ThreadOk(m, m.threads[st.t]);
  }

  lemma {:induction false} CannotForever(ms: seq<State>, sts: seq<Step>, m: State, t: nat, i: nat)
    requires Inv(m) && Running(m) && !CanServe(m, t) && OwnRun(ms, sts, m, t) && i < |ms|
    ensures Inv(ms[i]) && Running(ms[i]) && !CanServe(ms[i], t) && ms[i].handled == m.handled && ms[i].first == m.first
  {
    if i > 0 {
      CannotForever(ms, sts, m, t, i - 1);
      assert ms[i - 1 + 1] == Do(ms[i - 1], sts[i - 1]);
      CannotStays(ms[i - 1], sts[i - 1]);
      StepKeeps(ms[i - 1], sts[i - 1]);
    }
  }

  /**
   * Exactly which threads can: in any running state of any run with something committed to hand over, thread `t` gets it
   * handled by its own steps alone if and only if no other thread is inside and its next range starts at or before the
   * consumer's place; between two offers that is where its ring cursor stands.
   */
  lemma ServesIffBehind(ms: seq<State>, sts: seq<Step>, i: nat, t: nat)
    requires Run(ms, sts) && Initial(ms[0]) && i < |ms| && Running(ms[i]) && Place(ms[i]) < ms[i].committed && t < |ms[i].threads|
    ensures HandsOverAlone(ms[i], t) <==> CanServe(ms[i], t)
    ensures var x := ms[i].threads[t]; x.Out? || x.Peeked? ==> (Behind(ms[i], x) <==> Cursor(x) <= Place(ms[i]))
  {
    Reachable(ms, sts, i);
    if CanServe(ms[i], t) {
      var ms', sts' := NextCanBeHandled(ms[i], t);
    } else if HandsOverAlone(ms[i], t) {
      var ms': seq<State>, sts': seq<Step> :| OwnRun(ms', sts', ms[i], t) && ms'[|sts'|].handled == ms[i].handled + [Place(ms[i])];
      CannotForever(ms', sts', ms[i], t, |sts'|);
    }
  }

  function ExampleSteps(): seq<Step>
  {
    [Step(0, Peek(1)), Step(1, Peek(3)), Step(0, Begin), Step(0, Read), Step(0, Cas), Step(1, Read), Step(0, HandleOne), Step(0, Finish)]
  }

  function ExampleAt(i: nat): State
  {
    match i
    case 0 => State(Unset, [Out(0), Out(0)], 3, 0, [], 0)
    case 1 => State(Unset, [Peeked(0, 1), Out(0)], 3, 0, [], 0)
    case 2 => State(Unset, [Peeked(0, 1), Peeked(0, 3)], 3, 0, [], 0)
    case 3 => State(At(0), [Peeked(0, 1), Peeked(0, 3)], 3, 0, [], 0)
    case 4 => State(At(0), [Taking(0, 1, 0), Peeked(0, 3)], 3, 0, [], 0)
    case 5 => State(Ignore, [Handling(0, 1, 0), Peeked(0, 3)], 3, 0, [], 0)
    case 6 => State(Ignore, [Handling(0, 1, 0), Done(0, 3)], 3, 0, [], 0)
    case 7 => State(Ignore, [Handling(0, 1, 1), Done(0, 3)], 3, 0, [0], 0)
    case _ => State(At(1), [Done(0, 1), Done(0, 3)], 3, 0, [0], 0)
  }

  lemma ExampleStep(i: nat)
    requires i < 8
    ensures var st := ExampleSteps()[i]; Enabled(ExampleAt(i), st.t, st.op) && ExampleAt(i + 1) == Do(ExampleAt(i), st)
  {
  }

  /**
   * In the middle of an offer the cursor alone does not tell. Thread 1 found the consumer busy with what thread 0 offered
   * it, and will skip a range that reaches past where thread 0 has left it: nobody is inside, its cursor is before the
   * place, and it cannot hand over the next sequence.
   */
  lemma CursorBehindIsNotEnough() returns (ms: seq<State>, sts: seq<Step>)
    ensures Run(ms, sts) && Initial(ms[0])
    ensures var m := ms[|sts|];
            m.next.At? && |m.threads| == 2 && Cursor(m.threads[1]) <= Place(m) < m.committed && !HandsOverAlone(m, 1)
  {
    ms, sts := seq(9, i requires 0 <= i => ExampleAt(i)), ExampleSteps();
    forall i | 0 <= i < 8 ensures Enabled(ms[i], sts[i].t, sts[i].op) && ms[i + 1] == Do(ms[i], sts[i]) { ExampleStep(i); }
    ServesIffBehind(ms, sts, 8, 1);
  }

  /** So nothing is skipped for good: any such thread can bring the consumer up to everything committed. */
  lemma {:induction false} ConsumerCanCatchUp(m: State, t: nat) returns (ms: seq<State>, sts: seq<Step>)
    requires Inv(m) && CanServe(m, t)
    ensures OwnRun(ms, sts, m, t) && ms[|sts|].committed == m.committed
    ensures Place(ms[|sts|]) == m.committed && m.handled <= ms[|sts|].handled
    decreases m.committed - Place(m)
  {
    if Place(m) == m.committed {
      ms, sts := [m], [];
    } else {
      var ms1, sts1 := NextCanBeHandled(m, t);
      var ms2, sts2 := ConsumerCanCatchUp(ms1[|sts1|], t);
      JoinRuns(ms1, sts1, ms2, sts2, m, t);
      ms, sts := ms1[..|sts1|] + ms2, sts1 + sts2;
    }
  }

  /** From any running state of any run one thread alone can. */
  lemma CatchUpFromAnyRun(ms: seq<State>, sts: seq<Step>, i: nat) returns (t: nat, ms': seq<State>, sts': seq<Step>)
    requires Run(ms, sts) && Initial(ms[0]) && i < |ms| && Running(ms[i])
    ensures OwnRun(ms', sts', ms[i], t) && Place(ms'[|sts'|]) == ms'[|sts'|].committed == ms[i].committed
  {
    Reachable(ms, sts, i);
    SomeThreadCanServe(ms, sts, i);
    t := ms[i].owner;
    ms', sts' := ConsumerCanCatchUp(ms[i], t);
  }

  /** A consumer that is up to date is called all the same, without messages, by any thread at its place. */
  lemma IsInvokedWhenIdle(m: State, t: nat)
    requires Inv(m) && m.next.At? && t < |m.threads| && m.threads[t] == Out(Place(m))
    ensures Enabled(m, t, Peek(Place(m)))
    ensures var m1 := Do(m, Step(t, Peek(Place(m))));
            && Enabled(m1, t, Read)
            && var m2 := Do(m1, Step(t, Read));
               Enabled(m2, t, Cas) && Do(m2, Step(t, Cas)).threads[t] == Invoking(Place(m), Place(m))
  {
    assert ThreadOk(m, m.threads[t]);
  }

  /** Once it has stopped every thread finds that out by itself, and drops it. */
  lemma {:induction false} StopIsNoticed(m: State, t: nat) returns (ms: seq<State>, sts: seq<Step>)
    requires Inv(m) && m.next == Stop && t < |m.threads|
    ensures OwnRun(ms, sts, m, t) && t < |ms[|sts|].threads| && ms[|sts|].threads[t].Gone?
    decreases match m.threads[t] case Gone => 0 case Peeked(_, _) => 1 case Out(_) => 2 case Done(_, _) => 3 case _ => 4
  {
    assert ThreadOk(m, m.threads[t]);
    if m.threads[t].Gone? {
      ms, sts := [m], [];
    } else {
      var st := Step(t, NextOp(m, t));
      StepKeeps(m, st);
      ms, sts := StopIsNoticed(Do(m, st), t);
      OwnFirst(m, st, ms, sts);
      ms, sts := [m] + ms, [st] + sts;
    }
  }

  lemma JoinRuns(ms1: seq<State>, sts1: seq<Step>, ms2: seq<State>, sts2: seq<Step>, m: State, t: nat)
    requires OwnRun(ms1, sts1, m, t) && OwnRun(ms2, sts2, ms1[|sts1|], t)
    ensures OwnRun(ms1[..|sts1|] + ms2, sts1 + sts2, m, t)
  {
    var ms, sts := ms1[..|sts1|] + ms2, sts1 + sts2;
    forall i | 0 <= i < |sts| ensures Enabled(ms[i], sts[i].t, sts[i].op) && ms[i + 1] == Do(ms[i], sts[i]) {
      if i < |sts1| {
        assert ms[i] == ms1[i] && ms[i + 1] == ms1[i + 1] && sts[i] == sts1[i];
      } else {
        var k := i - |sts1|;
        assert ms[i] == ms2[k] && ms[i + 1] == ms2[k + 1] && sts[i] == sts2[k];
      }
    }
  }
}
