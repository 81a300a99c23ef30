/** arXiv identifiers with their version: printing (rust/common/src/models.rs) and parsing
    (rust/poller/src/arxiv.rs).  The printed form is the member stored in the Redis seen set. */
module Versions {
  import opened Prelude

  const U32_LIMIT: nat := 0x1_0000_0000

  function Digit(d: nat): char
    requires d < 10
  {
    ('0' as int + d) as char
  }

  predicate IsDigit(c: char) {
    '0' <= c <= '9'
  }

  function DigitValue(c: char): nat
    requires IsDigit(c)
  {
    c as int - '0' as int
  }

  /** Decimal rendering of an unsigned integer, as `format!("{}", n)` and `str(n)` print it. */
  function Decimal(n: nat): string {
    if n < 10 then [Digit(n)] else Decimal(n / 10) + [Digit(n % 10)]
  }

  predicate AllDigits(s: string) {
    forall i :: 0 <= i < |s| ==> IsDigit(s[i])
  }

  /** Value of a digit string, most significant digit first. */
  function Value(s: string): nat
    requires AllDigits(s)
  {
    if s == "" then 0 else 10 * Value(s[..|s| - 1]) + DigitValue(s[|s| - 1])
  }

  /** Rust's `str::parse::<u32>`: an optional plus sign, then digits; overflow is an error. */
  function ParseU32(s: string): Option<nat> {
    var digits := if s != "" && s[0] == '+' then s[1..] else s;
    if digits == "" || !AllDigits(digits) || Value(digits) >= U32_LIMIT then None else Some(Value(digits))
  }

  /** Index of the last occurrence of `c`, as `str::rfind`. */
  function RFind(s: string, c: char): (r: Option<nat>)
    ensures r.Some? ==> r.value < |s| && s[r.value] == c && (forall j :: r.value < j < |s| ==> s[j] != c)
    ensures r.None? ==> c !in s
  {
    if s == "" then None
    else if s[|s| - 1] == c then Some(|s| - 1)
    else
      assert forall j :: 0 <= j < |s| - 1 ==> s[j] == s[..|s| - 1][j];
      RFind(s[..|s| - 1], c)
  }

  datatype SplitError = NoVersionSuffix | BadVersion | EmptyId

  datatype Versioned = Versioned(id: string, version: nat)

  function SplitVersion(s: string): Result<Versioned, SplitError> {
    match RFind(s, 'v')
    case None => Err(NoVersionSuffix)
    case Some(pos) =>
      match ParseU32(s[pos + 1..])
      case None => Err(BadVersion)
      case Some(version) =>
        if s[..pos] == "" then Err(EmptyId) else Ok(Versioned(s[..pos], version))
  }

  /** `format!("{}v{}", id, version)`: the seen-set member and the versioned id. */
  function SeenMember(id: string, version: nat): string {
    id + "v" + Decimal(version)
  }

  lemma {:induction false} DecimalIsDigits(n: nat)
    ensures Decimal(n) != "" && AllDigits(Decimal(n)) && Value(Decimal(n)) == n
    ensures Decimal(n)[0] == '0' ==> n == 0
  {
    if n >= 10 {
      DecimalIsDigits(n / 10);
      var p := Decimal(n / 10);
      var s := Decimal(n);
      assert s[..|s| - 1] == p && s[|s| - 1] == Digit(n % 10);
      assert s[0] == p[0];
    }
  }

  /** No leading zero, except the number zero itself, and no sign. */
  predicate Canonical(digits: string) {
    digits != "" && AllDigits(digits) && (digits[0] == '0' ==> |digits| == 1)
  }

  lemma {:induction false} CanonicalIsDecimal(digits: string)
    requires Canonical(digits)
    ensures digits == Decimal(Value(digits))
  {
    var init, last := digits[..|digits| - 1], digits[|digits| - 1];
    assert digits == init + [last];
    if |digits| == 1 {
      assert Value(digits) == DigitValue(last);
    } else {
      assert digits[0] == init[0];
      CanonicalIsDecimal(init);
      DecimalIsDigits(Value(init));
      assert Decimal(0) == "0";
      assert Value(digits) / 10 == Value(init) && Value(digits) % 10 == DigitValue(last);
    }
  }

  /** A non-digit separator splits a printed pair in exactly one place. */
  lemma JoinedPairIsUnique(a: string, b: string, c: char, m: nat, n: nat)
    requires !IsDigit(c)
    requires a + [c] + Decimal(m) == b + [c] + Decimal(n)
    ensures a == b && m == n
  {
    hide Decimal;
    DecimalIsDigits(m);
    DecimalIsDigits(n);
    var s, t := a + [c] + Decimal(m), b + [c] + Decimal(n);
    assert s[|a|] == c && t[|b|] == c;
    assert forall k :: |a| < k < |s| ==> s[k] == Decimal(m)[k - |a| - 1];
    assert forall k :: |b| < k < |t| ==> t[k] == Decimal(n)[k - |b| - 1];
    assert |a| == |b|;
    assert a == s[..|a|] && b == t[..|b|];
    assert Decimal(m) == s[|a| + 1..] && Decimal(n) == t[|b| + 1..];
  }

  /** Distinct (id, version) pairs never share a seen-set member, whatever letters the id contains. */
  lemma SeenMemberInjective(id1: string, v1: nat, id2: string, v2: nat)
    requires SeenMember(id1, v1) == SeenMember(id2, v2)
    ensures id1 == id2 && v1 == v2
  {
    JoinedPairIsUnique(id1, id2, 'v', v1, v2);
  }

  lemma RFindAfterJoin(id: string, c: char, tail: string)
    requires c !in tail
    ensures RFind(id + [c] + tail, c) == Some(|id|)
  {
    hide RFind;
    var s := id + [c] + tail;
    assert s[|id|] == c;
    assert s[|id| + 1..] == tail;
    forall k | |id| < k < |s|
      ensures s[k] != c
    {
      assert s[k] == s[|id| + 1..][k - |id| - 1];
    }
  }

  /** Parsing undoes printing for every u32 version; larger versions and empty ids are refused. */
  lemma SplitUndoesPrint(id: string, version: nat)
    ensures SplitVersion(SeenMember(id, version)) ==
            if version >= U32_LIMIT then Err(BadVersion)
            else if id == "" then Err(EmptyId)
            else Ok(Versioned(id, version))
  {
    DecimalIsDigits(version);
    var digits := Decimal(version);
    assert 'v' !in digits;
    RFindAfterJoin(id, 'v', digits);
    var s := SeenMember(id, version);
    assert s[|id| + 1..] == digits && s[..|id|] == id;
    assert digits[0] != '+';
  }

  /** Printing undoes parsing exactly when the version was written without sign or leading zeros. */
  lemma PrintUndoesSplit(s: string)
    requires SplitVersion(s).Ok?
    ensures SeenMember(SplitVersion(s).value.id, SplitVersion(s).value.version) == s
            <==> Canonical(s[RFind(s, 'v').value + 1..])
  {
    var pos := RFind(s, 'v').value;
    var id, tail := s[..pos], s[pos + 1..];
    var version := SplitVersion(s).value.version;
    assert s == id + "v" + tail;
    DecimalIsDigits(version);
    if SeenMember(id, version) == s {
      assert tail == SeenMember(id, version)[pos + 1..] == Decimal(version);
      if tail[0] == '0' {
        assert Decimal(0) == "0";
      }
    }
    if Canonical(tail) {
      assert tail[0] != '+';
      CanonicalIsDecimal(tail);
    }
  }

  /** An optional plus sign and then decimal digits, at least one, of a value below 2 to the 32. */
  ghost predicate Reads(tail: string, version: nat) {
    Means(if tail != "" && tail[0] == '+' then tail[1..] else tail, version)
  }

  ghost predicate Means(digits: string, version: nat) {
    && digits != "" && (forall i :: 0 <= i < |digits| ==> '0' <= digits[i] <= '9')
    && version == DigitSum(digits) < 0x1_0000_0000
  }

  /** The sum of the digits, each times ten to the number of digits after it. */
  ghost function DigitSum(digits: string): int
    requires forall i :: 0 <= i < |digits| ==> '0' <= digits[i] <= '9'
  {
    if digits == "" then 0 else (digits[0] as int - '0' as int) * TenTo(|digits| - 1) + DigitSum(digits[1..])
  }

  ghost function TenTo(n: nat): nat {
    if n == 0 then 1 else 10 * TenTo(n - 1)
  }

  lemma {:induction false} DigitSumLast(init: string, last: char)
    requires (forall i :: 0 <= i < |init| ==> '0' <= init[i] <= '9') && '0' <= last <= '9'
    ensures DigitSum(init + [last]) == 10 * DigitSum(init) + (last as int - '0' as int)
  {
    var all := init + [last];
    if init == "" {
      assert all[1..] == "";
      assert TenTo(0) == 1;
    } else {
      assert all[1..] == init[1..] + [last];
      DigitSumLast(init[1..], last);
      var d, ten := init[0] as int - '0' as int, TenTo(|init| - 1);
      assert TenTo(|init|) == 10 * ten;
      assert d * (10 * ten) == 10 * (d * ten);
    }
  }

  lemma {:induction false} ValueIsDigitSum(digits: string)
    requires AllDigits(digits)
    ensures Value(digits) == DigitSum(digits)
  {
    if digits != "" {
      var init, last := digits[..|digits| - 1], digits[|digits| - 1];
      ValueIsDigitSum(init);
      DigitSumLast(init, last);
      assert init + [last] == digits;
    }
  }

  lemma ParseIsReads(tail: string, version: nat)
    ensures ParseU32(tail) == Some(version) <==> Reads(tail, version)
  {
    var digits := if tail != "" && tail[0] == '+' then tail[1..] else tail;
    if AllDigits(digits) {
      ValueIsDigitSum(digits);
    }
  }

  /** Which strings are accepted: a non-empty id, the letter v, and a u32. */
  lemma SplitAccepts(s: string, id: string, version: nat)
    ensures SplitVersion(s) == Ok(Versioned(id, version)) <==>
            id != "" && |s| > |id| && s[..|id| + 1] == id + "v" && Reads(s[|id| + 1..], version)
  {
    hide Reads, SplitVersion, ParseU32;
    if |s| > |id| {
      ParseIsReads(s[|id| + 1..], version);
    }
    if SplitVersion(s) == Ok(Versioned(id, version)) {
      SplitHasParts(s);
    }
    if id != "" && |s| > |id| && s[..|id| + 1] == id + "v" && ParseU32(s[|id| + 1..]) == Some(version) {
      SplitOfParts(id, s[|id| + 1..], version);
      assert s == id + "v" + s[|id| + 1..];
    }
  }

  lemma SplitHasParts(s: string)
    requires SplitVersion(s).Ok?
    ensures var r := SplitVersion(s).value;
            r.id != "" && |s| > |r.id| && s[..|r.id| + 1] == r.id + "v" && ParseU32(s[|r.id| + 1..]) == Some(r.version)
  {
    hide ParseU32;
    var pos := RFind(s, 'v').value;
    assert s[..pos + 1] == s[..pos] + "v";
  }

  lemma ParsedHasNoLetter(tail: string)
    requires ParseU32(tail).Some?
    ensures 'v' !in tail
  {
    assert forall j :: 0 < j < |tail| && tail[0] == '+' ==> tail[j] == tail[1..][j - 1];
  }

  lemma SplitOfParts(id: string, tail: string, version: nat)
    requires id != "" && ParseU32(tail) == Some(version)
    ensures SplitVersion(id + "v" + tail) == Ok(Versioned(id, version))
  {
    ParsedHasNoLetter(tail);
    RFindAfterJoin(id, 'v', tail);
    var s := id + "v" + tail;
    assert s[|id| + 1..] == tail && s[..|id|] == id;
  }
}
