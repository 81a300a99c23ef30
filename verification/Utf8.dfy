/** Byte strings and their UTF-8 character boundaries (rust/fetcher/src/chunk.rs:83-97; the encoding is
    sections 3 and 4 of RFC 3629). */
module Utf8 {
  type Byte = b: int | 0 <= b < 256
  type Text = seq<Byte>

  predicate IsTail(b: Byte) {
    0x80 <= b <= 0xBF
  }

  /** Length of the well-formed character at the start of s, 0 when there is none. */
  function CharLen(s: Text): (n: nat)
    ensures n <= |s|
    ensures n > 0 ==> !IsTail(s[0]) && forall i :: 1 <= i < n ==> IsTail(s[i])
  {
    if s == [] then 0
    else if s[0] <= 0x7F then 1
    else if 0xC2 <= s[0] <= 0xDF then if |s| >= 2 && IsTail(s[1]) then 2 else 0
    else if 0xE0 <= s[0] <= 0xEF then
      if |s| >= 3 && IsTail(s[1]) && IsTail(s[2]) && (s[0] == 0xE0 ==> s[1] >= 0xA0) && (s[0] == 0xED ==> s[1] <= 0x9F)
      then 3 else 0
    else if 0xF0 <= s[0] <= 0xF4 then
      if |s| >= 4 && IsTail(s[1]) && IsTail(s[2]) && IsTail(s[3]) &&
         (s[0] == 0xF0 ==> s[1] >= 0x90) && (s[0] == 0xF4 ==> s[1] <= 0x8F)
      then 4 else 0
    else 0
  }

  predicate ValidUtf8(s: Text) {
    s == [] || (CharLen(s) > 0 && ValidUtf8(s[CharLen(s)..]))
  }

  /** str::is_char_boundary. */
  predicate IsBoundary(s: Text, i: nat) {
    i == 0 || i == |s| || (i < |s| && !IsTail(s[i]))
  }

  function Min(a: nat, b: nat): nat {
    if a <= b then a else b
  }

  /** The greatest boundary at or before i. */
  function Floor(s: Text, i: nat): (r: nat)
    ensures r <= Min(i, |s|) && IsBoundary(s, r)
    ensures forall j: nat :: r < j <= Min(i, |s|) ==> !IsBoundary(s, j)
  {
    var k := Min(i, |s|);
    if IsBoundary(s, k) then k else Floor(s, k - 1)
  }

  /** The least boundary at or after i, or the end. */
  function Ceil(s: Text, i: nat): (r: nat)
    ensures Min(i, |s|) <= r <= |s| && IsBoundary(s, r)
    ensures forall j: nat :: Min(i, |s|) <= j < r ==> !IsBoundary(s, j)
    decreases if i <= |s| then |s| - i else 0
  {
    var k := Min(i, |s|);
    if IsBoundary(s, k) then k else Ceil(s, k + 1)
  }

  method FloorCharBoundary(s: Text, at: nat) returns (i: nat)
    ensures i == Floor(s, at)
  {
    i := Min(at, |s|);
    while !IsBoundary(s, i)
      invariant i <= Min(at, |s|)
      invariant forall j: nat :: i < j <= Min(at, |s|) ==> !IsBoundary(s, j)
      decreases i
    {
      i := i - 1;
    }
    assert i >= Floor(s, at) >= i;
  }

  method CeilCharBoundary(s: Text, at: nat) returns (i: nat)
    ensures i == Ceil(s, at)
  {
    i := Min(at, |s|);
    while !IsBoundary(s, i)
      invariant Min(at, |s|) <= i <= |s|
      invariant forall j: nat :: Min(at, |s|) <= j < i ==> !IsBoundary(s, j)
      decreases |s| - i
    {
      i := i + 1;
    }
    assert i <= Ceil(s, at) <= i;
  }

  lemma ValidUnfold(s: Text)
    requires s != []
    ensures ValidUtf8(s) <==> CharLen(s) > 0 && ValidUtf8(s[CharLen(s)..])
  {
    hide CharLen;
  }

  lemma CharLenOfPrefix(s: Text, i: nat)
    requires 0 < CharLen(s) <= i <= |s|
    ensures CharLen(s[..i]) == CharLen(s)
  {
    hide IsTail;
    var t := s[..i];
    assert forall k :: 0 <= k < CharLen(s) ==> t[k] == s[k];
  }

  /** A boundary after the first character is a boundary of what follows it, at the end of a character. */
  lemma BoundaryAfter(s: Text, i: nat)
    requires 0 < i <= |s| && CharLen(s) > 0 && IsBoundary(s, i)
    ensures CharLen(s) <= i && IsBoundary(s[CharLen(s)..], i - CharLen(s))
  {
    hide CharLen;
    var c := CharLen(s);
    assert c <= i;
    assert i < |s| ==> s[c..][i - c] == s[i];
  }

  /** Cutting valid text at a boundary leaves two valid texts. */
  lemma {:induction false} BoundarySplits(s: Text, i: nat)
    requires ValidUtf8(s) && i <= |s| && IsBoundary(s, i)
    ensures ValidUtf8(s[..i]) && ValidUtf8(s[i..])
  {
    hide CharLen, IsBoundary, ValidUtf8;
    if i == 0 {
      assert s[..0] == [] && s[0..] == s;
      EmptyIsValid();
    } else {
      ValidUnfold(s);
      BoundaryAfter(s, i);
      var c := CharLen(s);
      CharLenOfPrefix(s, i);
      BoundarySplits(s[c..], i - c);
      SlicesOfSlices(s, c, i);
      ValidUnfold(s[..i]);
    }
  }

  /** Valid text can be cut into two valid texts at the boundaries and nowhere else. */
  lemma BoundaryExactly(s: Text, i: nat)
    requires ValidUtf8(s) && i <= |s|
    ensures IsBoundary(s, i) <==> ValidUtf8(s[..i]) && ValidUtf8(s[i..])
  {
    if IsBoundary(s, i) {
      BoundarySplits(s, i);
    } else {
      assert s[i..][0] == s[i];
    }
  }

  lemma EmptyIsValid()
    ensures ValidUtf8([])
  {
  }

  lemma SlicesOfSlices(s: Text, c: nat, i: nat)
    requires c <= i <= |s|
    ensures s[c..][i - c..] == s[i..] && s[..i][c..] == s[c..][..i - c]
  {
  }

  /** A slice between boundaries of valid text is valid text; slicing never splits a character. */
  lemma SliceIsValid(s: Text, lo: nat, hi: nat)
    requires ValidUtf8(s) && Floor(s, lo) <= Ceil(s, hi)
    ensures ValidUtf8(s[Floor(s, lo)..Ceil(s, hi)])
  {
    var b0, b1 := Floor(s, lo), Ceil(s, hi);
    BoundarySplits(s, b1);
    BoundarySplits(s[..b1], b0);
    assert s[..b1][b0..] == s[b0..b1];
  }
}
