/**
 * The overwriting ring of hmbdc/pattern/MemRingBufferRt.hpp: producers never wait, readers notice what they missed.
 * Every shared read or write is one step; a payload is written and copied word by word.
 */
module RtRing {
  import opened Common

  /** No tag is the source's `UPDATING`. */
  datatype Slot = Slot(tag: Option<nat>, words: seq<int>)

  /** `log` lists what was claimed, so `|log|` is `toBeClaimedSeq_`. */
  datatype Ring = Ring(cap: nat, width: nat, slots: seq<Slot>, log: seq<seq<int>>)

  datatype Producer =
    | Idle
    | Marking(s: nat, item: seq<int>)
    | Writing(s: nat, item: seq<int>, w: nat)

  /** `Looking` is about to read a tag, `Late` found a later one, `Copying` copies item `r` and then checks. */
  datatype Phase =
    | Resting
    | Looking(r: nat)
    | Late(r: nat)
    | Copying(r: nat, copied: seq<int>)

  /** What a read returned: 1, or -1 when older items were missed. */
  datatype Took = Took(s: nat, value: seq<int>, code: int)

  /** `record` is the reader's `ReadRecord`. */
  datatype Reader = Reader(record: nat, phase: Phase, took: seq<Took>)

  datatype System = System(ring: Ring, producers: seq<Producer>, readers: seq<Reader>)

  datatype ProducerOp = Claim(item: seq<int>) | Mark | WriteWord | Commit

  datatype ReaderOp = Start | Look | GiveUp | Skip | CopyWord | Verify

  datatype Step = ByProducer(p: nat, op: ProducerOp) | ByReader(c: nat, rop: ReaderOp)

  function At(g: Ring, u: nat): Slot
    requires |g.slots| > 0
  {
    g.slots[u % |g.slots|]
  }

  predicate ProducerEnabled(g: Ring, x: Producer, op: ProducerOp)
  {
    match op
    case Claim(item) => x == Idle && |item| == g.width
    case Mark => x.Marking?
    case WriteWord => x.Writing? && x.w < |x.item| && |g.slots| > 0 && x.w < |At(g, x.s).words|
    case Commit => x.Writing? && x.w == |x.item|
  }

  function ProducerMove(g: Ring, x: Producer, op: ProducerOp): Producer
    requires ProducerEnabled(g, x, op)
  {
    match op
    case Claim(item) => Marking(|g.log|, item)
    case Mark => Writing(x.s, x.item, 0)
    case WriteWord => Writing(x.s, x.item, x.w + 1)
    case Commit => Idle
  }

  function ProducerEffect(g: Ring, x: Producer, op: ProducerOp): Ring
    requires ProducerEnabled(g, x, op) && |g.slots| > 0
  {
    match op
    case Claim(item) => g.(log := g.log + [item])
    case Mark => g.(slots := g.slots[x.s % |g.slots| := At(g, x.s).(tag := None)])
    case WriteWord => g.(slots := g.slots[x.s % |g.slots| := At(g, x.s).(words := At(g, x.s).words[x.w := x.item[x.w]])])
    case Commit => g.(slots := g.slots[x.s % |g.slots| := At(g, x.s).(tag := Some(x.s))])
  }

  predicate Later(g: Ring, r: nat)
    requires |g.slots| > 0
  {
    At(g, r).tag.Some? && r < At(g, r).tag.value
  }

  /** `take` waits where `tryTake` gives up: a reader that finds nothing looks again, or rests. */
  predicate ReaderEnabled(g: Ring, y: Reader, op: ReaderOp)
  {
    && |g.slots| > 0
    && match op
       case Start => y.phase.Resting?
       case Look => y.phase.Looking? && (At(g, y.phase.r).tag == Some(y.phase.r) || Later(g, y.phase.r))
       case GiveUp => y.phase.Looking? && At(g, y.phase.r).tag != Some(y.phase.r) && !Later(g, y.phase.r)
       case Skip => y.phase.Late?
       case CopyWord => y.phase.Copying? && |y.phase.copied| < g.width && |y.phase.copied| < |At(g, y.phase.r).words|
       case Verify => y.phase.Copying? && |y.phase.copied| == g.width
  }

  function ReaderMove(g: Ring, y: Reader, op: ReaderOp): Reader
    requires ReaderEnabled(g, y, op)
  {
    match op
    case Start => y.(phase := Looking(y.record))
    case Look => y.(phase := if Later(g, y.phase.r) then Late(y.phase.r) else Copying(y.phase.r, []))
    case GiveUp => y.(phase := Resting)
    case Skip => y.(phase := Looking(if |g.log| - y.phase.r >= 2 * g.cap then y.phase.r + g.cap else y.phase.r + 1))
    case CopyWord => y.(phase := Copying(y.phase.r, y.phase.copied + [At(g, y.phase.r).words[|y.phase.copied|]]))
    case Verify =>
      if At(g, y.phase.r).tag != Some(y.phase.r) then y.(phase := Looking(y.phase.r + 1))
      else Reader(y.phase.r + 1, Resting,
                  y.took + [Took(y.phase.r, y.phase.copied, if y.record == y.phase.r then 1 else -1)])
  }

  ghost predicate Next(m: System, st: Step, m': System)
  {
    match st
    case ByProducer(p, op) =>
      && p < |m.producers| && |m.ring.slots| > 0 && ProducerEnabled(m.ring, m.producers[p], op)
      && m'.ring == ProducerEffect(m.ring, m.producers[p], op) && m'.readers == m.readers
      && m'.producers == m.producers[p := ProducerMove(m.ring, m.producers[p], op)]
    case ByReader(c, rop) =>
      && c < |m.readers| && ReaderEnabled(m.ring, m.readers[c], rop)
      && m'.ring == m.ring && m'.producers == m.producers
      && m'.readers == m.readers[c := ReaderMove(m.ring, m.readers[c], rop)]
  }

  ghost predicate Initial(m: System)
  {
    && m.ring.cap > 0 && |m.ring.slots| == m.ring.cap && m.ring.log == []
    && (forall i :: 0 <= i < |m.ring.slots| ==> m.ring.slots[i].tag == None && |m.ring.slots[i].words| == m.ring.width)
    && (forall p :: 0 <= p < |m.producers| ==> m.producers[p] == Idle)
    && (forall c :: 0 <= c < |m.readers| ==> m.readers[c] == Reader(0, Resting, []))
  }

  ghost predicate Run(ms: seq<System>, sts: seq<Step>)
  {
    && |ms| == |sts| + 1 && Initial(ms[0])
    && forall i :: 0 <= i < |sts| ==> Next(ms[i], sts[i], ms[i + 1])
  }
}

/** One producer: what readers accept is what was put. More producers: it is not. */
module RtProofs {
  import opened Common
  import opened RtRing

  // ---- the invariant --------------------------------------------------------------------------

  /** How many items are committed. */
  function Committed(m: System): nat
    requires |m.producers| <= 1
  {
    if m.producers == [] || m.producers[0].Idle? || m.ring.log == [] then |m.ring.log| else |m.ring.log| - 1
  }

  /** An unmarked slot holds the last item committed to it; a marked one is being written or never was. */
  ghost predicate SlotOk(g: Ring, i: nat, done: nat, busy: bool)
  {
    && i < |g.slots| && |g.slots[i].words| == g.width
    && (g.slots[i].tag.None? && !busy ==> i >= done)
    && (g.slots[i].tag.Some? ==>
          var t := g.slots[i].tag.value;
          t < done <= |g.log| && t % |g.slots| == i && done <= t + g.cap && g.slots[i].words == g.log[t])
  }

  predicate Busy(m: System, i: nat)
  {
    |m.producers| == 1 && m.producers[0].Writing? && |m.ring.slots| > 0 && m.producers[0].s % |m.ring.slots| == i
  }

  ghost predicate Base(m: System)
    requires |m.producers| <= 1
  {
    var g, done := m.ring, Committed(m);
    && g.cap > 0 && |g.slots| == g.cap && done <= |g.log|
    && (forall u :: 0 <= u < |g.log| ==> |g.log[u]| == g.width)
    && (forall i :: 0 <= i < |g.slots| ==> SlotOk(g, i, done, Busy(m, i)))
  }

  ghost predicate ProducerOk(g: Ring, x: Producer)
  {
    match x
    case Idle => true
    case Marking(s, item) => s + 1 == |g.log| && g.log[s] == item
    case Writing(s, item, w) =>
      && s + 1 == |g.log| && g.log[s] == item && w <= |item| == g.width
      && |g.slots| > 0 && At(g, s).tag == None && |At(g, s).words| == g.width
      && forall j :: 0 <= j < w ==> At(g, s).words[j] == item[j]
  }

  /** `u` is read, or the item that overwrites it is already claimed. */
  ghost predicate Accounted(g: Ring, took: seq<Took>, u: nat)
  {
    u + g.cap < |g.log| || exists k :: 0 <= k < |took| && took[k].s == u
  }

  ghost predicate TookOk(g: Ring, took: seq<Took>, k: nat)
  {
    && k < |took| && took[k].s < |g.log| && took[k].value == g.log[took[k].s]
    && (k > 0 ==> took[k - 1].s < took[k].s)
    && took[k].code == if took[k].s == (if k == 0 then 0 else took[k - 1].s + 1) then 1 else -1
  }

  /** Where the reader stands in this call. */
  function Place(y: Reader): nat
  {
    match y.phase case Resting => y.record case Looking(r) => r case Late(r) => r case Copying(r, _) => r
  }

  ghost predicate PhaseOk(g: Ring, done: nat, phase: Phase)
  {
    match phase
    case Late(r) => r + g.cap < |g.log|
    case Copying(r, copied) =>
      && r < done <= |g.log| && |copied| <= g.width == |g.log[r]|
      && (|g.slots| > 0 && At(g, r).tag == Some(r) ==> copied == g.log[r][..|copied|])
    case _ => true
  }

  ghost predicate ReaderOk(g: Ring, done: nat, y: Reader)
  {
    && PhaseOk(g, done, y.phase)
    && y.record <= Place(y) <= |g.log|
    && y.record == (if y.took == [] then 0 else y.took[|y.took| - 1].s + 1)
    && (forall k :: 0 <= k < |y.took| ==> TookOk(g, y.took, k))
    && (forall u: nat :: u < Place(y) ==> Accounted(g, y.took, u))
  }

  ghost predicate Inv(m: System)
  {
    && |m.producers| <= 1
    && Base(m)
    && (forall p :: 0 <= p < |m.producers| ==> ProducerOk(m.ring, m.producers[p]))
    && (forall c :: 0 <= c < |m.readers| ==> ReaderOk(m.ring, Committed(m), m.readers[c]))
  }

  // ---- the producer ---------------------------------------------------------------------------

  /** Readers see the ring change as the producer moves: what they hold stays right. */
  lemma ReaderKept(g: Ring, done: nat, g': Ring, done': nat, y: Reader)
    requires ReaderOk(g, done, y) && done <= done' <= |g'.log|
    requires g'.cap == g.cap && g'.width == g.width && |g'.slots| == |g.slots| > 0
    requires |g.log| <= |g'.log| && g'.log[..|g.log|] == g.log
    requires forall u: nat :: u < done && At(g', u).tag == Some(u) ==> At(g, u).tag == Some(u)
    ensures ReaderOk(g', done', y)
  {
    forall u: nat | u < |g.log| ensures g'.log[u] == g.log[u] { assert g'.log[..|g.log|][u] == g.log[u]; }
    forall u: nat | u < Place(y) ensures Accounted(g', y.took, u) { assert Accounted(g, y.took, u); }
    forall k | 0 <= k < |y.took| ensures TookOk(g', y.took, k) { assert TookOk(g, y.took, k); }
  }

  lemma ReadersKept(m: System, op: ProducerOp, m': System)
    requires Inv(m) && Next(m, ByProducer(0, op), m')
    ensures Committed(m) <= Committed(m') <= |m'.ring.log|
    ensures forall c :: 0 <= c < |m'.readers| ==> ReaderOk(m'.ring, Committed(m'), m'.readers[c])
  {
    assert ProducerOk(m.ring, m.producers[0]);
    forall c | 0 <= c < |m'.readers| ensures ReaderOk(m'.ring, Committed(m'), m'.readers[c]) {
      ReaderKept(m.ring, Committed(m), m'.ring, Committed(m'), m.readers[c]);
    }
  }

  lemma ClaimKeeps(m: System, item: seq<int>, m': System)
    requires Inv(m) && Next(m, ByProducer(0, Claim(item)), m')
    ensures Inv(m')
  {
    ReadersKept(m, Claim(item), m');
    forall i | 0 <= i < |m'.ring.slots| ensures SlotOk(m'.ring, i, Committed(m'), Busy(m', i)) {
      assert SlotOk(m.ring, i, Committed(m), Busy(m, i));
    }
  }

  lemma MarkKeeps(m: System, m': System)
    requires Inv(m) && Next(m, ByProducer(0, Mark), m')
    ensures Inv(m')
  {
    ReadersKept(m, Mark, m');
    var k := m.producers[0].s % |m.ring.slots|;
    assert ProducerOk(m.ring, m.producers[0]) && SlotOk(m.ring, k, Committed(m), Busy(m, k));
    forall i | 0 <= i < |m'.ring.slots| ensures SlotOk(m'.ring, i, Committed(m'), Busy(m', i)) {
      assert SlotOk(m.ring, i, Committed(m), Busy(m, i));
    }
  }

  lemma WriteKeeps(m: System, m': System)
    requires Inv(m) && Next(m, ByProducer(0, WriteWord), m')
    ensures Inv(m')
  {
    ReadersKept(m, WriteWord, m');
    assert ProducerOk(m.ring, m.producers[0]);
    forall i | 0 <= i < |m'.ring.slots| ensures SlotOk(m'.ring, i, Committed(m'), Busy(m', i)) {
      assert SlotOk(m.ring, i, Committed(m), Busy(m, i));
    }
  }

  lemma CommitKeeps(m: System, m': System)
    requires Inv(m) && Next(m, ByProducer(0, Commit), m')
    ensures Inv(m')
  {
    ReadersKept(m, Commit, m');
    var g, s := m.ring, m.producers[0].s;
    assert ProducerOk(g, m.producers[0]);
    assert At(g, s).words == g.log[s];
    forall i | 0 <= i < |m'.ring.slots| ensures SlotOk(m'.ring, i, Committed(m'), Busy(m', i)) {
      assert SlotOk(g, i, Committed(m), Busy(m, i));
      if i != s % |g.slots| {
        SmallSlot(s, g.cap);
        if g.slots[i].tag.Some? { NextTurn(g.slots[i].tag.value, g.cap); }
      }
    }
  }

  // ---- readers --------------------------------------------------------------------------------

  /** What a reader may rely on. */
  ghost predicate Readable(g: Ring, done: nat)
  {
    && g.cap > 0 && |g.slots| == g.cap && done <= |g.log|
    && (forall u :: 0 <= u < |g.log| ==> |g.log[u]| == g.width)
    && (forall i :: 0 <= i < |g.slots| ==> SlotOk(g, i, done, true))
    && forall u: nat :: u < done && At(g, u).tag != Some(u) ==> u + g.cap < |g.log|
  }

  lemma LastIsAhead(t: nat, u: nat, cap: nat, done: nat)
    requires cap > 0 && t % cap == u % cap && t != u && t < done && u < done <= t + cap
    ensures u + cap <= t
  {
    if t > u { TurnAhead(u, t, cap); } else { TurnAhead(t, u, cap); }
  }

  /** An item no longer in its slot has been overtaken by a claimed one. */
  lemma Overtaken(m: System, u: nat)
    requires Inv(m) && u < Committed(m) && At(m.ring, u).tag != Some(u)
    ensures u + m.ring.cap < |m.ring.log|
  {
    var g, i := m.ring, u % m.ring.cap;
    SmallSlot(u, g.cap);
    assert SlotOk(g, i, Committed(m), Busy(m, i));
    if g.slots[i].tag.Some? {
      LastIsAhead(g.slots[i].tag.value, u, g.cap, Committed(m));
    } else if Busy(m, i) {
      assert ProducerOk(g, m.producers[0]);
      TurnAhead(u, m.producers[0].s, g.cap);
    }
  }

  lemma InvIsReadable(m: System)
    requires Inv(m)
    ensures Readable(m.ring, Committed(m))
  {
    forall u: nat | u < Committed(m) && At(m.ring, u).tag != Some(u) ensures u + m.ring.cap < |m.ring.log| {
      Overtaken(m, u);
    }
    forall i | 0 <= i < |m.ring.slots| ensures SlotOk(m.ring, i, Committed(m), true) {
      assert SlotOk(m.ring, i, Committed(m), Busy(m, i));
    }
  }

  lemma LookOk(g: Ring, done: nat, y: Reader)
    requires Readable(g, done) && ReaderOk(g, done, y) && ReaderEnabled(g, y, Look)
    ensures ReaderOk(g, done, ReaderMove(g, y, Look))
  {
    assert SlotOk(g, y.phase.r % |g.slots|, done, true);
    if Later(g, y.phase.r) { TurnAhead(y.phase.r, At(g, y.phase.r).tag.value, g.cap); }
  }

  lemma SkipOk(g: Ring, done: nat, y: Reader)
    requires Readable(g, done) && ReaderOk(g, done, y) && ReaderEnabled(g, y, Skip)
    ensures ReaderOk(g, done, ReaderMove(g, y, Skip))
  {
    var y' := ReaderMove(g, y, Skip);
    forall u: nat | u < Place(y') ensures Accounted(g, y'.took, u) {
      if u < Place(y) { assert Accounted(g, y.took, u); }
    }
  }

  lemma CopyOk(g: Ring, done: nat, y: Reader)
    requires Readable(g, done) && ReaderOk(g, done, y) && ReaderEnabled(g, y, CopyWord)
    ensures ReaderOk(g, done, ReaderMove(g, y, CopyWord))
  {
    var r, copied := y.phase.r, y.phase.copied;
    assert SlotOk(g, r % |g.slots|, done, true);
    if At(g, r).tag == Some(r) {
      assert copied + [g.log[r][|copied|]] == g.log[r][..|copied| + 1];
    }
  }

  lemma VerifyOk(g: Ring, done: nat, y: Reader)
    requires Readable(g, done) && ReaderOk(g, done, y) && ReaderEnabled(g, y, Verify)
    ensures ReaderOk(g, done, ReaderMove(g, y, Verify))
  {
    var y', r := ReaderMove(g, y, Verify), y.phase.r;
    if At(g, r).tag == Some(r) {
      assert y.phase.copied == g.log[r];
      forall k | 0 <= k < |y'.took| ensures TookOk(g, y'.took, k) {
        if k < |y.took| { assert TookOk(g, y.took, k); }
      }
      assert y'.took[|y.took|].s == r;
    }
    forall u: nat | u < Place(y') ensures Accounted(g, y'.took, u) {
      if u < r {
        assert Accounted(g, y.took, u);
        assert forall k :: 0 <= k < |y.took| ==> y'.took[k] == y.took[k];
      }
    }
  }

  lemma ReaderStepKeeps(m: System, c: nat, rop: ReaderOp, m': System)
    requires Inv(m) && Next(m, ByReader(c, rop), m')
    ensures Inv(m')
  {
    InvIsReadable(m);
    var y, done := m.readers[c], Committed(m);
    assert ReaderOk(m.ring, done, y);
    match rop {
      case Look => LookOk(m.ring, done, y);
      case Skip => SkipOk(m.ring, done, y);
      case CopyWord => CopyOk(m.ring, done, y);
      case Verify => VerifyOk(m.ring, done, y);
      case _ =>
    }
    forall i | 0 <= i < |m'.ring.slots| ensures SlotOk(m'.ring, i, done, Busy(m', i)) {
      assert SlotOk(m.ring, i, done, Busy(m, i));
    }
  }

  lemma StepKeeps(m: System, st: Step, m': System)
    requires Inv(m) && Next(m, st, m')
    ensures Inv(m')
  {
    match st
    case ByProducer(p, op) =>
      match op {
        case Claim(item) => ClaimKeeps(m, item, m');
        case Mark => MarkKeeps(m, m');
        case WriteWord => WriteKeeps(m, m');
        case Commit => CommitKeeps(m, m');
      }
    case ByReader(c, rop) => ReaderStepKeeps(m, c, rop, m');
  }

  lemma RunStepKeeps(ms: seq<System>, sts: seq<Step>, i: nat)
    requires Run(ms, sts) && i < |sts| && Inv(ms[i])
    ensures Inv(ms[i + 1])
  {
    StepKeeps(ms[i], sts[i], ms[i + 1]);
  }

  lemma InitialIsSafe(m: System)
    requires Initial(m) && |m.producers| <= 1
    ensures Inv(m)
  {
  }

  lemma {:induction false} Reachable(ms: seq<System>, sts: seq<Step>, i: nat)
    requires Run(ms, sts) && |ms[0].producers| <= 1 && i < |ms|
    ensures Inv(ms[i])
  {
    if i == 0 {
      InitialIsSafe(ms[0]);
    } else {
      Reachable(ms, sts, i - 1);
      RunStepKeeps(ms, sts, i - 1);
    }
  }

  // ---- results --------------------------------------------------------------------------------

  /** What a reader accepted is what was put, in increasing order, and the code says whether something was missed. */
  ghost predicate Faithful(g: Ring, took: seq<Took>)
  {
    forall k :: 0 <= k < |took| ==> TookOk(g, took, k)
  }

  lemma OneProducerIsFaithful(ms: seq<System>, sts: seq<Step>, i: nat, c: nat)
    requires Run(ms, sts) && |ms[0].producers| <= 1 && i < |ms| && c < |ms[i].readers|
    ensures Faithful(ms[i].ring, ms[i].readers[c].took)
  {
    Reachable(ms, sts, i);
    assert ReaderOk(ms[i].ring, Committed(ms[i]), ms[i].readers[c]);
  }

  /** The skip-ahead, and every other way to pass an item by, leaves behind only what a claimed item overwrites. */
  lemma OnlyOverwrittenItemsAreMissed(ms: seq<System>, sts: seq<Step>, i: nat, c: nat, u: nat)
    requires Run(ms, sts) && |ms[0].producers| <= 1 && i < |ms| && c < |ms[i].readers|
    requires u < Place(ms[i].readers[c]) && u + ms[i].ring.cap >= |ms[i].ring.log|
    ensures exists k :: 0 <= k < |ms[i].readers[c].took| && ms[i].readers[c].took[k].s == u
  {
    Reachable(ms, sts, i);
    assert ReaderOk(ms[i].ring, Committed(ms[i]), ms[i].readers[c]);
    assert Accounted(ms[i].ring, ms[i].readers[c].took, u);
  }

  /** A reader that finds nothing while the producer rests has seen everything. */
  lemma NothingToReadMeansAllRead(ms: seq<System>, sts: seq<Step>, i: nat, c: nat)
    requires Run(ms, sts) && |ms[0].producers| <= 1 && i < |ms| && c < |ms[i].readers|
    requires forall p :: 0 <= p < |ms[i].producers| ==> ms[i].producers[p].Idle?
    requires ReaderEnabled(ms[i].ring, ms[i].readers[c], GiveUp)
    ensures ms[i].readers[c].phase.r == |ms[i].ring.log|
  {
    Reachable(ms, sts, i);
    var g, y := ms[i].ring, ms[i].readers[c];
    assert ReaderOk(g, Committed(ms[i]), y);
    var k := y.phase.r % |g.slots|;
    assert SlotOk(g, k, Committed(ms[i]), Busy(ms[i], k));
    if y.phase.r < |g.log| {
      SmallSlot(y.phase.r, g.cap);
      TurnAhead(g.slots[k].tag.value, y.phase.r, g.cap);
    }
  }

  // ---- two producers --------------------------------------------------------------------------

  /** Some run over a ring of `cap` slots with `n` producers gets to `m`. */
  ghost predicate Gets(cap: nat, n: nat, m: System)
  {
    exists ms: seq<System>, sts: seq<Step> :: Run(ms, sts) && ms[|sts|] == m && ms[0].ring.cap == cap && |ms[0].producers| == n
  }

  lemma GetsOn(cap: nat, n: nat, m: System, st: Step, m': System)
    requires Gets(cap, n, m) && Next(m, st, m')
    ensures Gets(cap, n, m')
  {
    var ms: seq<System>, sts: seq<Step> :| Run(ms, sts) && ms[|sts|] == m && ms[0].ring.cap == cap && |ms[0].producers| == n;
    var ns, ss := ms + [m'], sts + [st];
    forall i | 0 <= i < |ss| ensures Next(ns[i], ss[i], ns[i + 1]) {
      if i < |sts| { assert Next(ms[i], sts[i], ms[i + 1]); }
    }
    assert Run(ns, ss) && ns[|ss|] == m';
  }

  /** Two producers at `p0` and `p1`, the others idle, and one reader. */
  function Pair(cap: nat, n: nat, slots: seq<Slot>, log: seq<seq<int>>, p0: Producer, p1: Producer, y: Reader): System
    requires n >= 2
  {
    System(Ring(cap, 1, slots, log), [p0, p1] + seq(n - 2, _ => Idle), [y])
  }

  predicate Narrow(slots: seq<Slot>, cap: nat) { cap > 0 && |slots| == cap && forall i :: 0 <= i < cap ==> |slots[i].words| == 1 }

  /** A step of producer `p`, 0 or 1. */
  lemma ProducerGoesOn(cap: nat, n: nat, slots: seq<Slot>, log: seq<seq<int>>, p0: Producer, p1: Producer, y: Reader, p: nat, op: ProducerOp)
    requires n >= 2 && p < 2 && Gets(cap, n, Pair(cap, n, slots, log, p0, p1, y)) && |slots| > 0
    requires ProducerEnabled(Ring(cap, 1, slots, log), if p == 0 then p0 else p1, op)
    ensures var g, x := Ring(cap, 1, slots, log), if p == 0 then p0 else p1;
            var g', x' := ProducerEffect(g, x, op), ProducerMove(g, x, op);
            Gets(cap, n, Pair(cap, n, g'.slots, g'.log, if p == 0 then x' else p0, if p == 1 then x' else p1, y))
  {
    var m, g, x := Pair(cap, n, slots, log, p0, p1, y), Ring(cap, 1, slots, log), if p == 0 then p0 else p1;
    var g', x' := ProducerEffect(g, x, op), ProducerMove(g, x, op);
    var m' := Pair(cap, n, g'.slots, g'.log, if p == 0 then x' else p0, if p == 1 then x' else p1, y);
    assert m'.producers == m.producers[p := x'];
    GetsOn(cap, n, m, ByProducer(p, op), m');
  }

  lemma ReaderGoesOn(cap: nat, n: nat, slots: seq<Slot>, log: seq<seq<int>>, p0: Producer, p1: Producer, y: Reader, op: ReaderOp)
    requires n >= 2 && Gets(cap, n, Pair(cap, n, slots, log, p0, p1, y)) && ReaderEnabled(Ring(cap, 1, slots, log), y, op)
    ensures Gets(cap, n, Pair(cap, n, slots, log, p0, p1, ReaderMove(Ring(cap, 1, slots, log), y, op)))
  {
    var y' := ReaderMove(Ring(cap, 1, slots, log), y, op);
    var m, m' := Pair(cap, n, slots, log, p0, p1, y), Pair(cap, n, slots, log, p0, p1, y');
    assert m'.readers == m.readers[0 := y'];
    GetsOn(cap, n, m, ByReader(0, op), m');
  }

  /** Producer 1 puts one item; only its slot changes. */
  lemma PutsOne(cap: nat, n: nat, slots: seq<Slot>, log: seq<seq<int>>, p0: Producer, y: Reader) returns (slots': seq<Slot>)
    requires n >= 2 && Narrow(slots, cap) && Gets(cap, n, Pair(cap, n, slots, log, p0, Idle, y))
    ensures Narrow(slots', cap) && Gets(cap, n, Pair(cap, n, slots', log + [[9]], p0, Idle, y))
    ensures forall i :: 0 <= i < cap && i != |log| % cap ==> slots'[i] == slots[i]
  {
    var s, item := |log|, [9];
    var k := s % cap;
    var log' := log + [item];
    ProducerGoesOn(cap, n, slots, log, p0, Idle, y, 1, Claim(item));
    ProducerGoesOn(cap, n, slots, log', p0, Marking(s, item), y, 1, Mark);
    var slots1 := slots[k := slots[k].(tag := None)];
    ProducerGoesOn(cap, n, slots1, log', p0, Writing(s, item, 0), y, 1, WriteWord);
    var slots2 := slots1[k := slots1[k].(words := slots1[k].words[0 := 9])];
    ProducerGoesOn(cap, n, slots2, log', p0, Writing(s, item, 1), y, 1, Commit);
    slots' := slots2[k := slots2[k].(tag := Some(s))];
  }

  /** Producer 1 puts items until the next one falls into slot 0; slot 0 stays as it is. */
  lemma {:induction false} PutsElsewhere(cap: nat, n: nat, slots: seq<Slot>, log: seq<seq<int>>, p0: Producer, y: Reader, turn: nat)
    returns (slots': seq<Slot>, log': seq<seq<int>>)
    requires n >= 2 && Narrow(slots, cap) && turn < |log| <= turn + cap && turn % cap == 0
    requires Gets(cap, n, Pair(cap, n, slots, log, p0, Idle, y))
    ensures Narrow(slots', cap) && slots'[0] == slots[0] && |log'| == turn + cap && log <= log'
    ensures Gets(cap, n, Pair(cap, n, slots', log', p0, Idle, y))
    decreases turn + cap - |log|
  {
    slots', log' := slots, log;
    if |log| < turn + cap {
      if |log| % cap == 0 { TurnAhead(turn, |log|, cap); }
      slots' := PutsOne(cap, n, slots, log, p0, y);
      slots', log' := PutsElsewhere(cap, n, slots', log + [[9]], p0, y, turn);
    }
  }

  /** The first producer claims item 0 and stops after marking its slot. */
  lemma FirstStops(cap: nat, n: nat) returns (slots: seq<Slot>)
    requires cap > 0 && n >= 2
    ensures Narrow(slots, cap) && Gets(cap, n, Pair(cap, n, slots, [[0]], Writing(0, [0], 0), Idle, Reader(0, Resting, [])))
  {
    slots := seq(cap, _ => Slot(None, [0]));
    var none: seq<seq<int>> := [];
    var y := Reader(0, Resting, []);
    var m := Pair(cap, n, slots, none, Idle, Idle, y);
    var ms, sts: seq<Step> := [m], [];
    assert Run(ms, sts) && ms[|sts|] == m;
    ProducerGoesOn(cap, n, slots, none, Idle, Idle, y, 0, Claim([0]));
    assert none + [[0]] == [[0]];
    SmallSlot(0, cap);
    ProducerGoesOn(cap, n, slots, [[0]], Marking(0, [0]), Idle, y, 0, Mark);
    assert slots[0 := slots[0].(tag := None)] == slots;
  }

  /** One turn later the second producer writes the same slot, the first wakes up and overwrites it, the second commits. */
  lemma SecondMarks(cap: nat, n: nat, slots: seq<Slot>, log: seq<seq<int>>, y: Reader)
    requires n >= 2 && Narrow(slots, cap) && |log| == cap && Gets(cap, n, Pair(cap, n, slots, log, Writing(0, [0], 0), Idle, y))
    ensures Gets(cap, n, Pair(cap, n, slots[0 := slots[0].(tag := None)], log + [[1]], Writing(0, [0], 0), Writing(cap, [1], 0), y))
  {
    var w := Writing(0, [0], 0);
    SmallSlot(0, cap);
    NextTurn(0, cap);
    ProducerGoesOn(cap, n, slots, log, w, Idle, y, 1, Claim([1]));
    ProducerGoesOn(cap, n, slots, log + [[1]], w, Marking(cap, [1]), y, 1, Mark);
  }

  lemma SecondIsOverwritten(cap: nat, n: nat, slots: seq<Slot>, log: seq<seq<int>>, y: Reader) returns (slots': seq<Slot>)
    requires n >= 2 && Narrow(slots, cap) && |log| == cap && Gets(cap, n, Pair(cap, n, slots, log, Writing(0, [0], 0), Idle, y))
    ensures Narrow(slots', cap) && slots'[0] == Slot(Some(cap), [0])
    ensures Gets(cap, n, Pair(cap, n, slots', log + [[1]], Writing(0, [0], 1), Idle, y))
  {
    var w, log' := Writing(0, [0], 0), log + [[1]];
    SmallSlot(0, cap);
    NextTurn(0, cap);
    SecondMarks(cap, n, slots, log, y);
    var a := slots[0 := slots[0].(tag := None)];
    ProducerGoesOn(cap, n, a, log', w, Writing(cap, [1], 0), y, 1, WriteWord);
    var b := a[0 := a[0].(words := a[0].words[0 := 1])];
    ProducerGoesOn(cap, n, b, log', w, Writing(cap, [1], 1), y, 0, WriteWord);
    var c := b[0 := b[0].(words := b[0].words[0 := 0])];
    assert c[0].words == [0];
    ProducerGoesOn(cap, n, c, log', Writing(0, [0], 1), Writing(cap, [1], 1), y, 1, Commit);
    slots' := c[0 := c[0].(tag := Some(cap))];
  }

  /** A reader that starts now is two turns behind, skips ahead by one, and accepts what it finds there. */
  lemma ReaderIsMisled(cap: nat, n: nat, slots: seq<Slot>, log: seq<seq<int>>, p0: Producer)
    requires n >= 2 && Narrow(slots, cap) && slots[0] == Slot(Some(cap), [0]) && |log| == 2 * cap
    requires Gets(cap, n, Pair(cap, n, slots, log, p0, Idle, Reader(0, Resting, [])))
    ensures Gets(cap, n, Pair(cap, n, slots, log, p0, Idle, Reader(cap + 1, Resting, [Took(cap, [0], -1)])))
  {
    var y := Reader(0, Resting, []);
    ReaderSkips(cap, n, slots, log, p0);
    ReaderTakes(cap, n, slots, log, p0);
  }

  /** It looks for the first item, finds a later one in its slot and looks for that. */
  lemma ReaderSkips(cap: nat, n: nat, slots: seq<Slot>, log: seq<seq<int>>, p0: Producer)
    requires n >= 2 && Narrow(slots, cap) && slots[0] == Slot(Some(cap), [0]) && |log| == 2 * cap
    requires Gets(cap, n, Pair(cap, n, slots, log, p0, Idle, Reader(0, Resting, [])))
    ensures Gets(cap, n, Pair(cap, n, slots, log, p0, Idle, Reader(0, Looking(cap), [])))
  {
    var y := Reader(0, Resting, []);
    SmallSlot(0, cap);
    NextTurn(0, cap);
    ReaderGoesOn(cap, n, slots, log, p0, Idle, y, Start);
    ReaderGoesOn(cap, n, slots, log, p0, Idle, y.(phase := Looking(0)), Look);
    ReaderGoesOn(cap, n, slots, log, p0, Idle, y.(phase := Late(0)), Skip);
  }

  lemma ReaderTakes(cap: nat, n: nat, slots: seq<Slot>, log: seq<seq<int>>, p0: Producer)
    requires n >= 2 && Narrow(slots, cap) && slots[0] == Slot(Some(cap), [0]) && |log| == 2 * cap
    requires Gets(cap, n, Pair(cap, n, slots, log, p0, Idle, Reader(0, Looking(cap), [])))
    ensures Gets(cap, n, Pair(cap, n, slots, log, p0, Idle, Reader(cap + 1, Resting, [Took(cap, [0], -1)])))
  {
    var y := Reader(0, Resting, []);
    var none: seq<Took>, empty: seq<int> := [], [];
    SmallSlot(0, cap);
    NextTurn(0, cap);
    ReaderGoesOn(cap, n, slots, log, p0, Idle, y.(phase := Looking(cap)), Look);
    ReaderGoesOn(cap, n, slots, log, p0, Idle, y.(phase := Copying(cap, empty)), CopyWord);
    assert empty + [0] == [0] && none + [Took(cap, [0], -1)] == [Took(cap, [0], -1)];
    ReaderGoesOn(cap, n, slots, log, p0, Idle, y.(phase := Copying(cap, [0])), Verify);
  }

  /** Two producers and a ring of any size: a reader accepts, for a sequence, a value nobody put with it. */
  lemma TornRun(cap: nat, n: nat) returns (m: System)
    requires cap > 0 && n >= 2
    ensures Gets(cap, n, m) && |m.readers| == 1 && !Faithful(m.ring, m.readers[0].took)
  {
    var y := Reader(0, Resting, []);
    var slots := FirstStops(cap, n);
    SmallSlot(0, cap);
    NextTurn(0, cap);
    var log;
    slots, log := PutsElsewhere(cap, n, slots, [[0]], Writing(0, [0], 0), y, 0);
    slots := SecondIsOverwritten(cap, n, slots, log, y);
    var log1 := log + [[1]];
    var log2;
    slots, log2 := PutsElsewhere(cap, n, slots, log1, Writing(0, [0], 1), y, cap);
    ReaderIsMisled(cap, n, slots, log2, Writing(0, [0], 1));
    m := Pair(cap, n, slots, log2, Writing(0, [0], 1), Idle, Reader(cap + 1, Resting, [Took(cap, [0], -1)]));
    assert log2[cap] == log1[cap] == [1];
    assert !TookOk(m.ring, m.readers[0].took, 0);
  }

  /** Whatever readers accept in any run over a ring of `cap` slots with `n` producers is right. */
  ghost predicate AlwaysFaithful(cap: nat, n: nat)
  {
    forall m: System, c: nat :: Gets(cap, n, m) && c < |m.readers| ==> Faithful(m.ring, m.readers[c].took)
  }

  /** For a ring of any size: readers are served faithfully exactly when at most one producer puts. */
  lemma FaithfulIffOneProducer(cap: nat, n: nat)
    requires cap > 0
    ensures AlwaysFaithful(cap, n) <==> n <= 1
  {
    if n <= 1 {
      forall m: System, c: nat | Gets(cap, n, m) && c < |m.readers| ensures Faithful(m.ring, m.readers[c].took) {
        var ms: seq<System>, sts: seq<Step> :| Run(ms, sts) && ms[|sts|] == m && ms[0].ring.cap == cap && |ms[0].producers| == n;
        OneProducerIsFaithful(ms, sts, |sts|, c);
      }
    } else {
      var m := TornRun(cap, n);
    }
  }
}

/** The ring while nobody else touches it: the source's methods. */
module RtBuffer {
  import opened Common

  /** Slot `i` has the last item of `log` that falls into it. */
  ghost predicate Fits<T>(tag: Option<nat>, item: T, i: nat, log: seq<T>, cap: nat)
    requires cap > 0
  {
    match tag
    case None => i >= |log|
    case Some(t) => t < |log| && t % cap == i && |log| <= t + cap && item == log[t]
  }

  /** One more item changes only the slot it falls into. */
  lemma PutFits<T>(tag: Option<nat>, item: T, i: nat, log: seq<T>, cap: nat, next: T)
    requires cap > 0 && i < cap && Fits(tag, item, i, log, cap) && i != |log| % cap
    ensures Fits(tag, item, i, log + [next], cap)
  {
    SmallSlot(|log|, cap);
    if tag.Some? { NextTurn(tag.value, cap); }
  }

  class MemRingBufferRt<T(0)> {
    const cap: nat
    const tags: array<Option<nat>>
    const items: array<T>
    var toBeClaimed: nat
    ghost var log: seq<T>

    ghost predicate SlotOk(i: nat)
      requires i < tags.Length && i < items.Length && cap > 0
      reads this, tags, items
    {
      Fits(tags[i], items[i], i, log, cap)
    }

    ghost predicate Valid()
      reads this, tags, items
    {
      && cap > 0 && tags.Length == cap && items.Length == cap && (tags as object) != (items as object)
      && toBeClaimed == |log|
      && forall i :: 0 <= i < cap ==> SlotOk(i)
    }

    constructor (capacity: nat)
      requires capacity > 0
      ensures Valid() && log == [] && cap == capacity && fresh(tags) && fresh(items)
    {
      cap := capacity;
      tags := new Option<nat>[capacity](_ => None);
      items := new T[capacity];
      toBeClaimed := 0;
      log := [];
    }

    /** Putting never waits: it takes the next sequence and overwrites the slot. */
    method Put(item: T)
      requires Valid()
      modifies this, tags, items
      ensures Valid() && log == old(log) + [item]
    {
      var s := toBeClaimed;
      toBeClaimed := s + 1;
      var index := s % cap;
      tags[index] := None;
      items[index] := item;
      tags[index] := Some(s);
      log := log + [item];
      forall i | 0 <= i < cap ensures SlotOk(i) {
        if i != index {
          assert old(SlotOk(i));
          PutFits(tags[i], items[i], i, old(log), cap, item);
        }
      }
    }

    /** Nonblocking read: 1 nothing missed, -1 older items missed, 0 nothing to read. */
    method TryTake(record: nat) returns (code: int, item: T, record': nat)
      requires Valid()
      ensures record >= |log| ==> code == 0 && record' == record
      ensures record < |log| ==>
        var s := Max(record, if |log| >= cap then |log| - cap else 0);
        record' == s + 1 && item == log[s] && code == if s == record then 1 else -1
    {
      item := *;
      var r := record;
      var copied := false;
      while !copied
        invariant r >= record
        invariant !copied ==> r == record
        invariant copied ==> record < |log| && r > 0 && r - 1 == Max(record, if |log| >= cap then |log| - cap else 0)
        invariant copied ==> item == log[r - 1]
        decreases !copied
      {
        while tags[r % cap] != Some(r)
          invariant r == record || (record <= r && r + cap <= |log|)
          decreases |log| - r
        {
          assert SlotOk(r % cap);
          if tags[r % cap].Some? && r < tags[r % cap].value {
            TurnAhead(r, tags[r % cap].value, cap);
            r := if toBeClaimed - r >= 2 * cap then r + cap else r + 1;
          } else {
            if r < |log| {
              SmallSlot(r, cap);
              if tags[r % cap].Some? { TurnAhead(tags[r % cap].value, r, cap); }
            }
            return 0, item, record;
          }
        }
        assert SlotOk(r % cap);
        item := items[r % cap];
        r := r + 1;
        copied := tags[(r - 1) % cap] == Some(r - 1);
      }
      return if record == r - 1 then 1 else -1, item, r;
    }
  }
}
