/** Exclusive peeking with out-of-order release: hmbdc/pattern/BlockingBuffer.hpp, lines 104-124 and 323-357. */
module BlockingBuffer {
  import opened Common

  // ---- the bookkeeping ------------------------------------------------------------------------

  /** `outstanding` is the ordered set of sequences handed out and not released, smallest first. */
  datatype Book = Book(capacity: nat, size: int, nextSeq: int, peeked: int, outstanding: seq<int>)

  datatype Op = Put | PutRefused | Peek | PeekNothing | Release(b: int)

  /** The queue's first sequence. */
  function Head(k: Book): int { k.nextSeq - k.size }

  /** The next sequence to hand out. */
  function NextOut(k: Book): int { k.nextSeq - k.size + k.peeked }

  function Without(s: seq<int>, b: int): (r: seq<int>)
    ensures forall x :: x in r <==> x in s && x != b
  {
    if s == [] then [] else if s[0] == b then Without(s[1..], b) else [s[0]] + Without(s[1..], b)
  }

  /** A release needs an outstanding sequence; everything else only the mutex. */
  predicate Enabled(k: Book, op: Op)
  {
    match op
    case Put => k.capacity > k.size
    case PutRefused => k.capacity <= k.size
    case Peek => k.size > k.peeked
    case PeekNothing => k.size <= k.peeked
    case Release(b) => b in k.outstanding
  }

  function Do(k: Book, op: Op): Book
    requires Enabled(k, op)
  {
    match op
    case Put => k.(size := k.size + 1, nextSeq := k.nextSeq + 1)
    case PutRefused => k
    case Peek => k.(peeked := k.peeked + 1, outstanding := k.outstanding + [NextOut(k)])
    case PeekNothing => k
    case Release(b) =>
      var rest := Without(k.outstanding, b);
      var reduction := if rest != [] then rest[0] - k.outstanding[0] else k.peeked;
      k.(outstanding := rest, size := k.size - reduction, peeked := k.peeked - reduction)
  }

  predicate Ascending(s: seq<int>) { forall i, j :: 0 <= i < j < |s| ==> s[i] < s[j] }

  ghost predicate Inv(k: Book)
  {
    && 0 <= k.peeked <= k.size <= k.capacity && k.size <= k.nextSeq
    && Ascending(k.outstanding)
    && (forall i :: 0 <= i < |k.outstanding| ==> Head(k) <= k.outstanding[i] < NextOut(k))
    && (if k.outstanding == [] then k.peeked == 0 else k.outstanding[0] == Head(k))
  }

  lemma {:induction false} WithoutAbsent(s: seq<int>, b: int)
    requires b !in s
    ensures Without(s, b) == s
  {
    if s != [] { WithoutAbsent(s[1..], b); }
  }

  lemma {:induction false} WithoutAt(s: seq<int>, i: nat)
    requires Ascending(s) && i < |s|
    ensures Without(s, s[i]) == s[..i] + s[i + 1..]
    decreases |s|
  {
    if i == 0 {
      WithoutAbsent(s[1..], s[0]);
    } else {
      WithoutAt(s[1..], i - 1);
      assert s[..i] == [s[0]] + s[1..][..i - 1];
    }
  }

  lemma ReleaseKeeps(k: Book, b: int)
    requires Inv(k) && b in k.outstanding
    ensures var k' := Do(k, Release(b));
            && Inv(k') && NextOut(k') == NextOut(k) && k'.outstanding == Without(k.outstanding, b)
            && Head(k') == if k'.outstanding == [] then NextOut(k) else k'.outstanding[0]
  {
    var rest := Without(k.outstanding, b);
    var at :| 0 <= at < |k.outstanding| && k.outstanding[at] == b;
    WithoutAt(k.outstanding, at);
    forall i | 0 <= i < |rest| ensures k.outstanding[0] <= rest[i] < NextOut(k) { assert rest[i] in k.outstanding; }
  }

  lemma StepKeeps(k: Book, op: Op)
    requires Inv(k) && Enabled(k, op)
    ensures Inv(Do(k, op))
    ensures NextOut(Do(k, op)) == if op == Peek then NextOut(k) + 1 else NextOut(k)
  {
    if op.Release? { ReleaseKeeps(k, op.b); }
  }

  ghost predicate Run(ks: seq<Book>, ops: seq<Op>)
  {
    && |ks| == |ops| + 1 && ks[0] == Book(ks[0].capacity, 0, 0, 0, []) && ks[0].capacity > 0
    && forall i :: 0 <= i < |ops| ==> Enabled(ks[i], ops[i]) && ks[i + 1] == Do(ks[i], ops[i])
  }

  /** What the peeks of a run were given, in order. */
  function HandedOut(ks: seq<Book>, ops: seq<Op>, n: nat): seq<int>
    requires n <= |ops| && |ks| == |ops| + 1
  {
    if n == 0 then []
    else HandedOut(ks, ops, n - 1) + if ops[n - 1] == Peek then [NextOut(ks[n - 1])] else []
  }

  lemma {:induction false} Reachable(ks: seq<Book>, ops: seq<Op>, n: nat)
    requires Run(ks, ops) && n <= |ops|
    ensures Inv(ks[n]) && ks[n].capacity == ks[0].capacity
    ensures var h := HandedOut(ks, ops, n); |h| == NextOut(ks[n]) && forall i :: 0 <= i < |h| ==> h[i] == i
  {
    if n > 0 {
      Reachable(ks, ops, n - 1);
      assert ks[n - 1 + 1] == Do(ks[n - 1], ops[n - 1]);
      StepKeeps(ks[n - 1], ops[n - 1]);
    }
  }

  /** Items go out in put order, each to one worker; what is neither out nor waiting has been given back. */
  lemma ItemsGoOutInOrder(ks: seq<Book>, ops: seq<Op>, n: nat)
    requires Run(ks, ops) && n <= |ops|
    ensures var h := HandedOut(ks, ops, n); forall i :: 0 <= i < |h| ==> h[i] == i
    ensures |HandedOut(ks, ops, n)| <= ks[n].nextSeq
    ensures ks[n].size <= ks[n].peeked ==> ks[n].size == ks[n].peeked
  {
    Reachable(ks, ops, n);
  }

  /** The lowest outstanding sequence is the queue head; with nothing outstanding no space is held back. */
  lemma SpaceComesBack(ks: seq<Book>, ops: seq<Op>, n: nat)
    requires Run(ks, ops) && n <= |ops|
    ensures ks[n].outstanding != [] ==> ks[n].outstanding[0] == Head(ks[n])
    ensures ks[n].outstanding == [] ==> ks[n].peeked == 0 && Head(ks[n]) == |HandedOut(ks, ops, n)|
    ensures ks[n].capacity > 0
    ensures forall u, v :: u in ks[n].outstanding && v in ks[n].outstanding && u % ks[n].capacity == v % ks[n].capacity ==> u == v
  {
    Reachable(ks, ops, n);
    forall u, v | u in ks[n].outstanding && v in ks[n].outstanding && u % ks[n].capacity == v % ks[n].capacity ensures u == v {
      SameSlot(u, v, ks[n].capacity);
    }
  }

  // ---- the object -----------------------------------------------------------------------------

  class BlockingBuffer<T(0)> {
    const capacity: nat
    const store: array<T>
    var size: int
    var nextSeq: int
    var peeked: int
    var outstanding: seq<int>
    /** Everything ever put. */
    ghost var log: seq<T>

    ghost function State(): Book
      reads this
    {
      Book(capacity, size, nextSeq, peeked, outstanding)
    }

    /** The slots from the head on hold what was put: outstanding ones are never written again. */
    ghost predicate Valid()
      reads this, store
    {
      && capacity > 0 && store.Length == capacity && Inv(State()) && nextSeq == |log|
      && forall s :: Head(State()) <= s < nextSeq ==> store[s % capacity] == log[s]
    }

    constructor (cap: nat)
      requires cap > 0
      ensures Valid() && fresh(store) && State() == Book(cap, 0, 0, 0, []) && log == []
    {
      capacity := cap;
      store := new T[cap];
      size, nextSeq, peeked, outstanding, log := 0, 0, 0, [], [];
    }

    /** `put` waits for room, `tryPut` gives up. */
    method TryPutInPlace(item: T) returns (ok: bool)
      requires Valid()
      modifies this`size, this`nextSeq, this`log, store
      ensures ok <==> old(size) < capacity
      ensures Valid() && State() == Do(old(State()), if ok then Put else PutRefused)
      ensures log == if ok then old(log) + [item] else old(log)
    {
      if capacity <= size { return false; }
      forall s | Head(State()) <= s < nextSeq ensures s % capacity != nextSeq % capacity {
        if s % capacity == nextSeq % capacity { SameSlot(s, nextSeq, capacity); }
      }
      store[nextSeq % capacity] := item;
      nextSeq := nextSeq + 1;
      size := size + 1;
      log := log + [item];
      ok := true;
    }

    /** Hands the next item to this caller alone. */
    method PeekExclusive() returns (r: Option<int>)
      requires Valid()
      modifies this`peeked, this`outstanding
      ensures r == if old(NextOut(State())) < nextSeq then Some(old(NextOut(State()))) else None
      ensures Valid() && State() == Do(old(State()), if r.Some? then Peek else PeekNothing)
      ensures r.Some? ==> 0 <= r.value < |log| && store[r.value % capacity] == log[r.value]
    {
      if size > peeked {
        var s := nextSeq - (size - peeked);
        StepKeeps(State(), Peek);
        peeked := peeked + 1;
        outstanding := outstanding + [s];
        return Some(s);
      }
      assert size == peeked;
      r := None;
    }

    method WasteAfterPeekExclusive(b: int)
      requires Valid() && b in outstanding
      modifies this`size, this`peeked, this`outstanding
      ensures Valid() && State() == Do(old(State()), Release(b)) && NextOut(State()) == old(NextOut(State()))
    {
      ReleaseKeeps(State(), b);
      var low := outstanding[0];
      outstanding := Without(outstanding, b);
      if outstanding != [] {
        var reduction := outstanding[0] - low;
        if reduction != 0 {
          size := size - reduction;
          peeked := peeked - reduction;
        }
      } else {
        size := size - peeked;
        peeked := 0;
      }
    }
  }
}
