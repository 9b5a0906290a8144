/** Vocabulary shared by every model: optional values and the sequence constants. */
module Common {

  datatype Option<+T> = None | Some(value: T)

  /** The type `HMBDC_SEQ_TYPE` is a 64-bit word; its largest value is a marker, never a sequence. */
  const SEQ_MAX: nat := 0xffff_ffff_ffff_ffff

  /** A message header keeps 48 bits of sequence; all ones stands for `SEQ_MAX`. */
  const WIRE_SEQ_MAX: nat := 0xffff_ffff_ffff

  /** 64-bit unsigned subtraction, wrapping as the source's `size_t` does. */
  function Minus64(a: nat, b: nat): nat
    requires b <= SEQ_MAX
  {
    if a >= b then a - b else a + SEQ_MAX + 1 - b
  }

  function Min(a: nat, b: nat): nat { if a <= b then a else b }

  function Max(a: nat, b: nat): nat { if a >= b then a else b }

  /** Two sequences less than one ring apart that share a slot are the same sequence. */
  lemma SameSlot(a: nat, b: nat, cap: nat)
    requires cap > 0 && a % cap == b % cap
    requires a < b + cap && b < a + cap
    ensures a == b
  {
    var qa, qb, r := a / cap, b / cap, a % cap;
    assert a == qa * cap + r;
    assert b == qb * cap + r;
    SameMultiple(qa, qb, cap, r);
  }

  /** A later sequence in the same slot is at least one turn ahead. */
  lemma TurnAhead(u: nat, t: nat, cap: nat)
    requires cap > 0 && u % cap == t % cap && u < t
    ensures u + cap <= t
  {
    if t < u + cap { SameSlot(u, t, cap); }
  }

  lemma SameMultiple(p: nat, q: nat, cap: nat, r: nat)
    requires p * cap + r < q * cap + r + cap && q * cap + r < p * cap + r + cap
    ensures p == q
  {
    if p > q { MulGap(p, q, cap); }
    if q > p { MulGap(q, p, cap); }
  }

  lemma {:induction false} MulGap(hi: nat, lo: nat, cap: nat)
    requires hi > lo
    ensures hi * cap >= lo * cap + cap
    decreases hi
  {
    if hi == lo + 1 {
      assert (lo + 1) * cap == lo * cap + cap;
    } else {
      MulGap(hi - 1, lo, cap);
      assert hi * cap == (hi - 1) * cap + cap;
    }
  }

  /** One turn of the ring later is the same slot. */
  lemma NextTurn(t: nat, cap: nat)
    requires cap > 0
    ensures (t + cap) % cap == t % cap
  {
    var q, r, q', r' := t / cap, t % cap, (t + cap) / cap, (t + cap) % cap;
    assert t == q * cap + r && t + cap == q' * cap + r';
    assert (q + 1) * cap == q * cap + cap;
    if q' > q + 1 { MulGap(q', q + 1, cap); }
    if q' < q + 1 { MulGap(q + 1, q', cap); }
  }

  lemma SmallSlot(t: nat, cap: nat)
    requires cap > 0
    ensures t % cap <= t && t % cap < cap && (t < cap ==> t % cap == t)
  {
  }

  /** A sequence and one that continues it agree on every slice of the first. */
  lemma PrefixSlice<T>(a: seq<T>, b: seq<T>, i: nat, j: nat)
    requires i <= j <= |a| <= |b| && b[..|a|] == a
    ensures b[i..j] == a[i..j]
  {
    assert b[..|a|][i..j] == b[i..j];
  }

  lemma Regroup<T>(a: seq<T>, b: seq<T>, c: seq<T>)
    ensures (a + b) + c == a + (b + c)
  {
  }

  /** The numbers from `lo` up to but not including `hi`. */
  function Range(lo: nat, hi: nat): (s: set<nat>)
    ensures (forall h :: h in s <==> lo <= h < hi) && |s| == if lo <= hi then hi - lo else 0
  {
    if hi <= lo then {} else Range(lo, hi - 1) + {hi - 1}
  }

  /** What holds of the first state, and is kept from each state to the next, holds of all. */
  lemma {:induction false} Induct<T>(xs: seq<T>, good: T -> bool, i: nat)
    requires i < |xs| && good(xs[0]) && forall j, k :: 0 <= j && j + 1 == k < |xs| && good(xs[j]) ==> good(xs[k])
    ensures good(xs[i])
  {
    if i > 0 { Induct(xs, good, i - 1); }
  }

  /** The steps `ops` lead from `s` to `s'`. */
  ghost predicate Leads<S(!new), O(!new)>(step: (S, O, S) -> bool, s: S, ops: seq<O>, s': S)
    decreases |ops|
  {
    if ops == [] then s' == s else exists m :: step(s, ops[0], m) && Leads(step, m, ops[1..], s')
  }

  lemma LeadsFrom<S(!new), O(!new)>(step: (S, O, S) -> bool, s: S, op: O, m: S, ops: seq<O>, s': S)
    requires step(s, op, m) && Leads(step, m, ops, s')
    ensures Leads(step, s, [op] + ops, s')
  {
    assert ([op] + ops)[1..] == ops;
  }

  lemma LeadsByOne<S(!new), O(!new)>(step: (S, O, S) -> bool, s: S, op: O, s': S)
    requires step(s, op, s')
    ensures Leads(step, s, [op], s')
  {
    LeadsFrom(step, s, op, s', [], s');
  }

  lemma {:induction false} LeadsOn<S(!new), O(!new)>(step: (S, O, S) -> bool, s: S, ops: seq<O>, m: S, more: seq<O>, s': S)
    requires Leads(step, s, ops, m) && Leads(step, m, more, s')
    ensures Leads(step, s, ops + more, s')
    decreases |ops|
  {
    if ops == [] {
      assert ops + more == more;
    } else {
      var n :| step(s, ops[0], n) && Leads(step, n, ops[1..], m);
      LeadsOn(step, n, ops[1..], m, more, s');
      assert (ops + more)[0] == ops[0] && (ops + more)[1..] == ops[1..] + more;
    }
  }

  /** The pieces `f(from)`, `f(from + 1)`, ..., `n` of them, one behind the other. */
  function Gathered<T>(f: nat -> seq<T>, from: nat, n: nat): seq<T>
  {
    if n == 0 then [] else Gathered(f, from, n - 1) + f(from + n - 1)
  }

  lemma {:induction false} CutGathered<T>(f: nat -> seq<T>, from: nat, t: nat, n: nat)
    requires t <= n
    ensures Gathered(f, from, n) == Gathered(f, from, t) + Gathered(f, from + t, n - t)
    decreases n
  {
    if t < n {
      CutGathered(f, from, t, n - 1);
      Regroup(Gathered(f, from, t), Gathered(f, from + t, n - 1 - t), f(from + n - 1));
    } else {
      assert Gathered(f, from + t, 0) == [];
    }
  }
}
