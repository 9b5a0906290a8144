/** The token bucket of hmbdc/time/Rater.hpp. A duration is a whole number of the clock's unit. */
module Rater {

  /** `drop` is what one unit costs, `n` the units last asked for. */
  datatype Bucket = Bucket(drop: nat, bucket: nat, level: int, previous: int, n: nat)

  datatype Op = Check(n: nat, now: int) | Commit

  function Refilled(b: Bucket, now: int): int
  {
    if b.level + (now - b.previous) > b.bucket then b.bucket else b.level + (now - b.previous)
  }

  function Do(b: Bucket, op: Op): Bucket
  {
    match op
    case Check(n, now) => b.(n := n, level := Refilled(b, now), previous := now)
    case Commit => b.(level := b.level - b.drop * b.n)
  }

  predicate Passes(b: Bucket, n: nat, now: int) { Refilled(b, now) >= b.drop * n }

  function Cost(b: Bucket, op: Op): int { if op == Commit then b.drop * b.n else 0 }

  ghost predicate Run(bs: seq<Bucket>, ops: seq<Op>)
  {
    && |bs| == |ops| + 1
    && forall i :: 0 <= i < |ops| ==> bs[i + 1] == Do(bs[i], ops[i])
  }

  /** The clock does not go back, and a commit directly follows a check that passed. */
  ghost predicate Proper(bs: seq<Bucket>, ops: seq<Op>)
    requires Run(bs, ops)
  {
    && (forall i :: 0 <= i < |ops| && ops[i].Check? ==> bs[i].previous <= ops[i].now)
    && (forall i :: 0 <= i < |ops| && ops[i].Commit? ==>
          0 < i && ops[i - 1].Check? && Passes(bs[i - 1], ops[i - 1].n, ops[i - 1].now))
  }

  /** What was committed by the steps i, ..., j - 1. */
  function Spent(bs: seq<Bucket>, ops: seq<Op>, i: nat, j: nat): int
    requires i <= j <= |ops| < |bs|
    decreases j
  {
    if i == j then 0 else Spent(bs, ops, i, j - 1) + Cost(bs[j - 1], ops[j - 1])
  }

  lemma {:induction false} SpendingIsPaidFor(bs: seq<Bucket>, ops: seq<Op>, i: nat, j: nat)
    requires Run(bs, ops) && Proper(bs, ops) && i <= j <= |ops|
    ensures Spent(bs, ops, i, j) + bs[j].level <= bs[i].level + (bs[j].previous - bs[i].previous)
    ensures bs[i].previous <= bs[j].previous && bs[j].bucket == bs[i].bucket && bs[j].drop == bs[i].drop
    decreases j
  {
    if i < j {
      SpendingIsPaidFor(bs, ops, i, j - 1);
      assert bs[j - 1 + 1] == Do(bs[j - 1], ops[j - 1]);
    }
  }

  /** Used properly, the level stays between nothing and a full bucket. */
  lemma {:induction false} LevelStaysInside(bs: seq<Bucket>, ops: seq<Op>, j: nat)
    requires Run(bs, ops) && Proper(bs, ops) && j <= |ops| && 0 <= bs[0].level <= bs[0].bucket
    ensures 0 <= bs[j].level <= bs[j].bucket
    decreases j
  {
    if j > 0 {
      LevelStaysInside(bs, ops, j - 1);
      assert bs[j - 1 + 1] == Do(bs[j - 1], ops[j - 1]);
      if ops[j - 1].Commit? { assert bs[j - 2 + 1] == Do(bs[j - 2], ops[j - 2]); }
    }
  }

  lemma WindowLeaves(bs: seq<Bucket>, ops: seq<Op>, i: nat, j: nat)
    requires Run(bs, ops) && Proper(bs, ops) && i <= j <= |ops| && 0 <= bs[0].level <= bs[0].bucket
    ensures Spent(bs, ops, i, j) + bs[j].level <= bs[0].bucket + (bs[j].previous - bs[i].previous)
  {
    SpendingIsPaidFor(bs, ops, i, j);
    SpendingIsPaidFor(bs, ops, 0, i);
    LevelStaysInside(bs, ops, i);
  }

  /** Over any stretch of a run, no more is committed than a full bucket and what time brings in. */
  lemma WindowIsBounded(bs: seq<Bucket>, ops: seq<Op>, i: nat, j: nat)
    requires Run(bs, ops) && Proper(bs, ops) && i <= j <= |ops| && 0 <= bs[0].level <= bs[0].bucket
    ensures Spent(bs, ops, i, j) <= bs[0].bucket + (bs[j].previous - bs[i].previous)
  {
    WindowLeaves(bs, ops, i, j);
    LevelStaysInside(bs, ops, j);
  }

  /** Some stretch up to now is as full as it may be: what is left is what it leaves. */
  lemma {:induction false} TightestStretch(bs: seq<Bucket>, ops: seq<Op>, j: nat) returns (i: nat)
    requires Run(bs, ops) && Proper(bs, ops) && j <= |ops| && bs[0].level == bs[0].bucket
    ensures i <= j && bs[j].level == bs[0].bucket + (bs[j].previous - bs[i].previous) - Spent(bs, ops, i, j)
    ensures bs[j].bucket == bs[0].bucket && bs[j].drop == bs[0].drop
    decreases j
  {
    if j == 0 {
      i := 0;
    } else {
      i := TightestStretch(bs, ops, j - 1);
      assert bs[j - 1 + 1] == Do(bs[j - 1], ops[j - 1]);
      if bs[j].level != bs[j - 1].level + (bs[j].previous - bs[j - 1].previous) - Cost(bs[j - 1], ops[j - 1]) { i := j; }
    }
  }

  /**
   * Exactly when a check passes, for a bucket that started full: the units cost no more than a full bucket, and for every
   * stretch of the run up to now what was committed in it and these units cost no more than a full bucket and the time
   * that has passed since it began.
   */
  lemma PassesIffEveryStretchFits(bs: seq<Bucket>, ops: seq<Op>, j: nat, n: nat, now: int)
    requires Run(bs, ops) && Proper(bs, ops) && j <= |ops| && bs[0].level == bs[0].bucket && bs[j].previous <= now
    ensures Passes(bs[j], n, now) <==>
              && bs[0].drop * n <= bs[0].bucket
              && forall i :: 0 <= i <= j ==> Spent(bs, ops, i, j) + bs[0].drop * n <= bs[0].bucket + (now - bs[i].previous)
  {
    var cost := bs[0].drop * n;
    var k := TightestStretch(bs, ops, j);
    assert Spent(bs, ops, k, j) + cost <= bs[0].bucket + (now - bs[k].previous) <==> cost <= bs[j].level + (now - bs[j].previous);
    forall i | 0 <= i <= j ensures Spent(bs, ops, i, j) + bs[j].level <= bs[0].bucket + (bs[j].previous - bs[i].previous) {
      WindowLeaves(bs, ops, i, j);
    }
  }

  /** Time brings the level back: whoever asks for no more than a full bucket and waits for what it costs may have it. */
  lemma WaitingHelps(bs: seq<Bucket>, ops: seq<Op>, j: nat, n: nat, now: int)
    requires Run(bs, ops) && Proper(bs, ops) && j <= |ops| && 0 <= bs[0].level <= bs[0].bucket
    requires bs[0].drop * n <= bs[0].bucket && bs[j].previous + bs[0].drop * n <= now
    ensures Passes(bs[j], n, now)
  {
    LevelStaysInside(bs, ops, j);
    SpendingIsPaidFor(bs, ops, 0, j);
  }

  function Commits(b: Bucket, k: nat): Bucket { if k == 0 then b else Do(Commits(b, k - 1), Commit) }

  /** `k` commits after one check overdraw the bucket exactly when its level does not cover the cost `k` times. */
  lemma {:induction false} OverdrawnIffNotCovered(b: Bucket, n: nat, now: int, k: nat)
    ensures var c := Commits(Do(b, Check(n, now)), k);
            c.n == n && c.drop == b.drop && c.level == Refilled(b, now) - k * (b.drop * n) && (c.level < 0 <==> Refilled(b, now) < k * (b.drop * n))
  {
    if k > 0 {
      OverdrawnIffNotCovered(b, n, now, k - 1);
      assert k * (b.drop * n) == (k - 1) * (b.drop * n) + b.drop * n;
    }
  }

  class Rater {
    const drop: nat
    const bucket: nat
    const enabled: bool
    var level: int
    var previous: int
    var n: nat

    ghost function State(): Bucket
      reads this
    {
      Bucket(drop, bucket, level, previous, n)
    }

    /** `times` units in `duration`, bursts of `burst`; no limit when `times` is 0. */
    constructor (duration: nat, times: nat, burst: nat, on: bool)
      ensures State() == Bucket(if times == 0 then duration else duration / times,
                                (if times == 0 then duration else duration / times) * burst, bucket, 0, 0)
      ensures enabled == (on && times != 0)
    {
      var d := if times == 0 then duration else duration / times;
      drop, bucket, enabled, level, previous, n := d, d * burst, on && times != 0, d * burst, 0, 0;
    }

    method CheckNow(units: nat, now: int) returns (ok: bool)
      modifies this
      ensures !enabled ==> ok && State() == old(State())
      ensures enabled ==> ok == Passes(old(State()), units, now) && State() == Do(old(State()), Check(units, now))
      ensures enabled ==> (ok <==> drop * units <= bucket && drop * units <= old(level) + (now - old(previous)))
    {
      if !enabled { return true; }
      n := units;
      level := level + (now - previous);
      previous := now;
      if level > bucket { level := bucket; }
      ok := level >= drop * units;
    }

    method CommitNow()
      modifies this`level
      ensures State() == Do(old(State()), Commit)
    {
      level := level - drop * n;
    }
  }
}
