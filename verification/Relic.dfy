/** What is left of a vector of buffers after a partial send: hmbdc/comm/inet/Misc.hpp, lines 137-161. */
module Relic {
  import opened Messages

  /** An `iovec` stands for the bytes it points at. */
  type IoVec = seq<byte>

  function Flat(v: seq<IoVec>): (r: seq<byte>)
  {
    if v == [] then [] else v[0] + Flat(v[1..])
  }

  lemma {:induction false} FlatOfConcat(a: seq<IoVec>, b: seq<IoVec>)
    ensures Flat(a + b) == Flat(a) + Flat(b)
  {
    if a == [] {
      assert a + b == b;
    } else {
      assert (a + b)[1..] == a[1..] + b;
      FlatOfConcat(a[1..], b);
    }
  }

  lemma FlatSplit(v: seq<IoVec>, i: nat)
    requires i < |v|
    ensures Flat(v) == Flat(v[..i]) + v[i] + Flat(v[i + 1..])
  {
    assert v == v[..i] + v[i..];
    FlatOfConcat(v[..i], v[i..]);
    assert v[i..][1..] == v[i + 1..];
  }

  lemma FlatGrows(v: seq<IoVec>, i: nat)
    requires i < |v|
    ensures Flat(v[..i + 1]) == Flat(v[..i]) + v[i]
  {
    assert v[..i + 1] == v[..i] + [v[i]];
    FlatOfConcat(v[..i], [v[i]]);
    assert Flat([v[i]]) == v[i] + Flat([]);
  }

  /** The buffer with the first byte that is not sent, and how much of it is. */
  method Skip(src: array<IoVec>, count: nat, sent: nat) returns (i: nat, l: nat)
    requires count <= src.Length && sent < |Flat(src[..count])|
    ensures i < count && l <= |src[i]| && sent == |Flat(src[..count][..i])| + l
  {
    ghost var v := src[..count];
    l, i := sent, 0;
    assert v[..0] == [];
    while l > 0 && i < count && |src[i]| <= l
      invariant i <= count && sent == |Flat(v[..i])| + l
    {
      FlatGrows(v, i);
      l := l - |src[i]|;
      i := i + 1;
    }
    assert v[..count] == v;
  }

  /** `memmove`: the source may be the destination, so the copy runs upwards. */
  method MoveDown(dst: array<IoVec>, src: array<IoVec>, i: nat, left: nat)
    requires i + left <= src.Length && 1 <= left <= dst.Length
    modifies dst
    ensures dst[0] == old(dst[0]) && forall m :: left <= m < dst.Length ==> dst[m] == old(dst[m])
    ensures forall m :: 1 <= m < left ==> dst[m] == old(src[i + m])
  {
    var k := 1;
    while k < left
      invariant 1 <= k <= left
      invariant dst[0] == old(dst[0]) && forall m :: left <= m < dst.Length ==> dst[m] == old(dst[m])
      invariant forall m :: 1 <= m < k ==> dst[m] == old(src[i + m])
      invariant forall m :: i + k <= m < i + left ==> src[m] == old(src[m])
    {
      dst[k] := src[i + k];
      k := k + 1;
    }
  }

  /** `sent` bytes of the first `count` buffers of `src` are gone; the rest is moved to the front of `dst`. */
  method ExtractRelicTo(dst: array<IoVec>, src: array<IoVec>, count: nat, sent: nat) returns (left: nat)
    requires count <= src.Length && count <= dst.Length
    requires sent < |Flat(src[..count])|
    modifies dst
    ensures 1 <= left <= count
    ensures Flat(dst[..left]) == old(Flat(src[..count]))[sent..]
    ensures forall k :: left <= k < dst.Length ==> dst[k] == old(dst[k])
  {
    ghost var v := src[..count];
    var i, l := Skip(src, count, sent);
    left := count - i;
    assert src[i] == v[i];
    dst[0] := src[i][l..];
    assert forall m :: i < m < count ==> src[m] == v[m];
    MoveDown(dst, src, i, left);
    assert dst[..left] == [v[i][l..]] + v[i + 1..];
    RestOf(v, i, l);
  }

  lemma RestOf(v: seq<IoVec>, i: nat, l: nat)
    requires i < |v| && l <= |v[i]|
    ensures |Flat(v[..i])| + l <= |Flat(v)| && Flat([v[i][l..]] + v[i + 1..]) == Flat(v)[|Flat(v[..i])| + l..]
  {
    var rest := v[i + 1..];
    FlatSplit(v, i);
    assert ([v[i][l..]] + rest)[1..] == rest;
    SuffixSplit(Flat(v[..i]), v[i], Flat(rest), l);
  }

  lemma SuffixSplit(a: seq<byte>, b: seq<byte>, c: seq<byte>, l: nat)
    requires l <= |b|
    ensures (a + b + c)[|a| + l..] == b[l..] + c
  {
  }
}
