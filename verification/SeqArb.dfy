/** The sequence arbiter of hmbdc/pattern/SeqArb.hpp. */
module SeqArb {
  import opened Common

  /** `expecting` is the sequence expected next, `j[i]` the last sequence participant i presented. */
  datatype Arb = Arb(expecting: nat, j: seq<nat>)

  /** Outcome of one call: 1 a hit, -1 an old sequence, 0 undecided; `gap` > 0 if the gap callback ran. */
  datatype Outcome = Outcome(arb: Arb, code: int, gap: nat)

  /** `seq + 1` on 64 bits. */
  function Next(s: nat): nat { if s == SEQ_MAX then 0 else s + 1 }

  function Low(j: seq<nat>): (low: nat)
    requires |j| > 0
    ensures low in j
    ensures forall i :: 0 <= i < |j| ==> low <= j[i]
  {
    if |j| == 1 then j[0]
    else var rest := Low(j[..|j| - 1]);
         if rest > j[|j| - 1] then j[|j| - 1] else rest
  }

  /** The operator with no other thread around. */
  function Arbitrate(a: Arb, part: nat, s: nat): Outcome
    requires part < |a.j|
  {
    var a1 := a.(j := a.j[part := s]);
    if a.expecting == s then Outcome(a1.(expecting := Next(s)), 1, 0)
    else if a.expecting == SEQ_MAX then Outcome(a1, 0, 0)
    else if s < a.expecting then Outcome(a1, -1, 0)
    else
      var low := Low(a1.j);
      if low > a.expecting then Outcome(a1.(expecting := low), 0, low - a.expecting) else Outcome(a1, 0, 0)
  }

  class SingleThreadSeqArb {
    var expecting: nat
    const j: array<nat>

    ghost function State(): Arb
      reads this, j
    {
      Arb(expecting, j[..])
    }

    constructor (participants: nat, startSeq: nat)
      requires participants > 0
      ensures fresh(j) && j.Length == participants
      ensures State() == Arb(startSeq, seq(participants, _ => 0))
    {
      expecting := startSeq;
      j := new nat[participants](_ => 0);
      new;
      assert j[..] == seq(participants, _ => 0);
    }

    method JLow() returns (res: nat)
      requires j.Length > 0
      ensures res == Low(j[..])
    {
      res := j[0];
      var i := 1;
      while i < j.Length
        invariant 1 <= i <= j.Length
        invariant res == Low(j[..i])
      {
        assert j[..i + 1][..i] == j[..i];
        if res > j[i] { res := j[i]; }
        i := i + 1;
      }
      assert j[..i] == j[..];
    }

    method Present(part: nat, s: nat) returns (code: int, gap: nat)
      requires part < j.Length
      modifies this, j
      ensures Outcome(State(), code, gap) == Arbitrate(old(State()), part, s)
    {
      code, gap := -1, 0;
      j[part] := s;
      assert j[..] == old(j[..])[part := s];
      if expecting == s {
        expecting := Next(s);
        code := 1;
      } else if expecting == SEQ_MAX {
        code := 0;
      } else if s > expecting {
        var low := JLow();
        if low > expecting {
          gap := low - expecting;
          expecting := low;
        }
        code := 0;
      }
    }
  }
}
