/** The null-aware string and integer helpers of the calculated-field host library
    (CalculatedField/Runtime.cs, classes LibString and LibMath). A C# `null` is `None`; a thrown
    .NET exception is a `Failure`. A .NET `string` is at most `int.MaxValue` characters long,
    `int` and `long` are the 32- and 64-bit two's-complement ranges, and `decimal` values appear
    only where they are compared, so they are `real` here. */
module CalcRuntime {
  import opened Wrappers

  const IntMin: int := -0x8000_0000
  const IntMax: int := 0x7FFF_FFFF
  const LongMin: int := -0x8000_0000_0000_0000
  const LongMax: int := 0x7FFF_FFFF_FFFF_FFFF

  type Int32 = x: int | IntMin <= x <= IntMax
  type Int64 = x: int | LongMin <= x <= LongMax
  type NetString = s: string | |s| <= IntMax

  /** The exceptions the modelled helpers can throw. */
  datatype RuntimeError = NullReference | ArgumentOutOfRange | Overflow

  /** The unchecked 32-bit addition of C#: the sum, wrapped into the int range. */
  function AddInt32(a: Int32, b: Int32): (r: Int32)
    ensures r == a + b || r == a + b - 0x1_0000_0000 || r == a + b + 0x1_0000_0000
    ensures IntMin <= a + b <= IntMax ==> r == a + b
  {
    (a + b - IntMin) % 0x1_0000_0000 + IntMin
  }

  // ---------------------------------------------------------------------------------------------
  // LibString

  /** length: 0 for null, the number of characters otherwise. */
  function Length(s: Option<NetString>): (r: Int64)
    ensures r >= 0
    ensures r == 0 <==> s.None? || s.value == ""
  {
    if s.None? then 0 else |s.value|
  }

  /** concat: null only when both are null; a null side contributes nothing. */
  function Concat(a: Option<string>, b: Option<string>): (r: Option<string>)
    ensures r.None? <==> a.None? && b.None?
  {
    if a.None? && b.None? then None
    else if a.None? then b
    else if b.None? then a
    else Some(a.value + b.value)
  }

  /** `part` occurs in `whole` at position `k`. */
  predicate OccursAt(whole: string, part: string, k: int) {
    0 <= k && k + |part| <= |whole| && whole[k..k + |part|] == part
  }

  /** The ordinal search String.Contains performs: try every starting position in turn. */
  predicate Occurs(whole: string, part: string)
    decreases |whole|
  {
    |part| <= |whole| && (whole[..|part|] == part || (whole != [] && Occurs(whole[1..], part)))
  }

  /** The search finds `part` exactly when it occurs somewhere in `whole`. */
  lemma {:induction false} OccursMeaning(whole: string, part: string)
    ensures Occurs(whole, part) <==> exists k :: OccursAt(whole, part, k)
    decreases |whole|
  {
    if |part| <= |whole| && whole != [] {
      OccursMeaning(whole[1..], part);
      if whole[..|part|] == part {
        assert whole[0..|part|] == part;
        assert OccursAt(whole, part, 0);
      } else if Occurs(whole, part) {
        var k :| OccursAt(whole[1..], part, k);
        assert whole[k + 1..k + 1 + |part|] == whole[1..][k..k + |part|];
        assert OccursAt(whole, part, k + 1);
      }
      if exists k :: OccursAt(whole, part, k) {
        var k :| OccursAt(whole, part, k);
        if k > 0 {
          assert whole[1..][k - 1..k - 1 + |part|] == whole[k..k + |part|];
          assert OccursAt(whole[1..], part, k - 1);
        } else {
          assert whole[..|part|] == whole[0..|part|] == part;
        }
      }
    } else if |part| <= |whole| {
      assert whole[..|part|] == part;
      assert OccursAt(whole, part, 0);
    }
  }

  /** contains: false when either side is null, otherwise whether `b` occurs in `a`. */
  function Contains(a: Option<string>, b: Option<string>): (r: bool)
    ensures r ==> a.Some? && b.Some? && |b.value| <= |a.value|
  {
    if a.None? || b.None? then false else Occurs(a.value, b.value)
  }

  /** Both parts of a concatenation of non-null strings are contained in it. */
  lemma ConcatContainsParts(a: string, b: string)
    ensures Contains(Concat(Some(a), Some(b)), Some(a))
    ensures Contains(Concat(Some(a), Some(b)), Some(b))
  {
    var whole := a + b;
    assert OccursAt(whole, a, 0);
    assert whole[|a|..|a| + |b|] == b;
    assert OccursAt(whole, b, |a|);
    OccursMeaning(whole, a);
    OccursMeaning(whole, b);
  }

  /** Lengths add up over concat, and null is its neutral element on either side. */
  lemma ConcatLength(a: Option<NetString>, b: Option<NetString>)
    requires Length(a) + Length(b) <= IntMax
    ensures Concat(a, b).Some? ==> |Concat(a, b).value| == Length(a) + Length(b)
    ensures Concat(None, b) == b && Concat(a, None) == a
  {
  }

  /** substring as the source states it: a null string, a negative start or length, or a start
      at or past the end give ""; a run reaching past the end is cut at the end, the test using
      the 32-bit sum `startIndex + length`; String.Substring throws when the run still does not
      fit. */
  function SubstringAsWritten(s: Option<NetString>, startIndex: Int32, length: Int32): (r: Result<string, RuntimeError>)
    ensures r.Success? ==> |r.value| <= Length(s)
  {
    if s.None? then Success("")
    else if startIndex < 0 || length < 0 then Success("")
    else if startIndex >= |s.value| then Success("")
    else
      var length' := if AddInt32(startIndex, length) >= |s.value| then |s.value| - startIndex else length;
      if startIndex + length' > |s.value| then Failure(ArgumentOutOfRange)
      else Success(s.value[startIndex..startIndex + length'])
  }

  /** substring as intended: the same empty cases, otherwise the characters from `startIndex`,
      at most `length` of them and none past the end. */
  function Substring(s: Option<NetString>, startIndex: Int32, length: Int32): (r: string)
    ensures |r| <= Length(s)
    ensures s.Some? && 0 <= startIndex < |s.value| && length >= 0 ==>
              |r| == (if startIndex + length < |s.value| then length else |s.value| - startIndex) &&
              OccursAt(s.value, r, startIndex)
    ensures s.None? || startIndex < 0 || length < 0 || startIndex >= |s.value| ==> r == ""
  {
    if s.None? || startIndex < 0 || length < 0 || startIndex >= |s.value| then ""
    else if startIndex + length >= |s.value| then s.value[startIndex..]
    else s.value[startIndex..startIndex + length]
  }

  /** Every substring is contained in its string. */
  lemma SubstringIsContained(s: NetString, startIndex: Int32, length: Int32)
    ensures Contains(Some(s), Some(Substring(Some(s), startIndex, length)))
  {
    var r := Substring(Some(s), startIndex, length);
    if r == "" {
      assert OccursAt(s, r, 0);
    } else {
      assert OccursAt(s, r, startIndex);
    }
    OccursMeaning(s, r);
  }

  /** Without a 32-bit overflow of `startIndex + length` the source's substring is the intended
      one. */
  lemma SubstringAsWrittenWithoutOverflow(s: Option<NetString>, startIndex: Int32, length: Int32)
    requires startIndex + length <= IntMax
    ensures SubstringAsWritten(s, startIndex, length) == Success(Substring(s, startIndex, length))
  {
  }

  /** With the overflow it throws: from "abc", start 1 and length int.MaxValue wrap round to a
      negative sum, the run is not cut, and String.Substring rejects it, where "bc" is meant. */
  lemma SubstringAsWrittenOverflows()
    ensures SubstringAsWritten(Some("abc"), 1, IntMax) == Failure(ArgumentOutOfRange)
    ensures Substring(Some("abc"), 1, IntMax) == "bc"
  {
    assert AddInt32(1, IntMax) == IntMin;
  }

  /** character as the source states it: a negative index gives "" before `s.Length` is read,
      so even a null string gives "" there; otherwise a null string throws, and an index past the
      end gives "". In range it calls String.Substring(i, i + 1), whose second argument is a
      length, and which throws when those `i + 1` characters do not fit. */
  function CharacterAsWritten(s: Option<NetString>, i: Int32): (r: Result<string, RuntimeError>)
    ensures r.Success? ==> i < 0 || (s.Some? && |r.value| <= |s.value|)
    ensures i < 0 ==> r == Success("")
    ensures s.None? ==> r == (if i < 0 then Success("") else Failure(NullReference))
    ensures s.Some? && !(0 <= i < |s.value|) ==> r == Success("")
    ensures s.Some? && 0 <= i < |s.value| ==> (r.Failure? <==> |s.value| < 2 * i + 1)
    ensures r.Success? && 0 <= i < |s.value| ==> OccursAt(s.value, r.value, i) && |r.value| == i + 1
  {
    if i < 0 then Success("")
    else if s.None? then Failure(NullReference)
    else if i >= |s.value| then Success("")
    else if i + (i + 1) > |s.value| then Failure(ArgumentOutOfRange)
    else Success(s.value[i..i + (i + 1)])
  }

  /** character as intended: the one character at `i`, or "" when `i` is out of range. The
      source's range test stays as it is, so a negative index gives "" before the string is
      read, and a null string throws only at an index that is not negative. */
  function Character(s: Option<NetString>, i: Int32): (r: Result<string, RuntimeError>)
    ensures r.Failure? <==> s.None? && i >= 0
    ensures r.Failure? ==> r.error == NullReference
    ensures i < 0 ==> r == Success("")
    ensures r.Success? && s.Some? && 0 <= i < |s.value| ==> r.value == [s.value[i]]
    ensures r.Success? && !(s.Some? && 0 <= i < |s.value|) ==> r.value == ""
  {
    if i < 0 then Success("")
    else if s.None? then Failure(NullReference)
    else if i >= |s.value| then Success("")
    else Success([s.value[i]])
  }

  /** The intended character is the one-character substring at `i`. */
  lemma CharacterIsSubstring(s: NetString, i: Int32)
    requires 0 <= i < |s|
    ensures Character(Some(s), i) == Success(Substring(Some(s), i, 1))
  {
    assert s[i..i + 1] == [s[i]];
  }

  /** The source's character agrees with the intended one only at index 0 (or out of range):
      at any index 0 < i < |s| it returns i + 1 characters or throws. */
  lemma CharacterAsWrittenAfterZero(s: NetString, i: Int32)
    requires 0 < i < |s|
    ensures CharacterAsWritten(Some(s), i) != Character(Some(s), i)
    ensures CharacterAsWritten(Some(s), i).Success? ==> |CharacterAsWritten(Some(s), i).value| == i + 1
  {
  }

  lemma CharacterAsWrittenAtZero(s: Option<NetString>, i: Int32)
    requires i <= 0 || (s.Some? && i >= |s.value|)
    ensures CharacterAsWritten(s, i) == Character(s, i)
  {
    if s.Some? && i == 0 < |s.value| {
      assert s.value[0..1] == [s.value[0]];
    }
  }

  /** From "abc" the source's character 1 is "bc", and from "ab" it throws. */
  lemma CharacterAsWrittenExamples()
    ensures CharacterAsWritten(Some("abc"), 1) == Success("bc")
    ensures CharacterAsWritten(Some("ab"), 1) == Failure(ArgumentOutOfRange)
  {
    assert "abc"[1..3] == "bc";
  }

  // ---------------------------------------------------------------------------------------------
  // LibMath over long? (and the null rules over decimal?)

  /** abs: null stays null; Math.Abs throws on long.MinValue, the one value without a positive
      counterpart. */
  function Abs(x: Option<Int64>): (r: Result<Option<Int64>, RuntimeError>)
    ensures r.Failure? <==> x == Some(LongMin)
    ensures r.Success? ==> (r.value.None? <==> x.None?)
    ensures r.Success? && x.Some? ==> r.value.value >= 0 && (r.value.value == x.value || r.value.value == -x.value)
  {
    if x.None? then Success(None)
    else if x.value == LongMin then Failure(Overflow)
    else Success(Some(if x.value < 0 then -x.value else x.value))
  }

  /** sign: null stays null; otherwise -1, 0 or 1. */
  function Sign(x: Option<Int64>): (r: Option<Int64>)
    ensures r.None? <==> x.None?
    ensures r.Some? ==> r.value in {-1, 0, 1} && (r.value == 0 <==> x.value == 0) && (r.value < 0 <==> x.value < 0)
  {
    if x.None? then None
    else if x.value < 0 then Some(-1)
    else if x.value > 0 then Some(1)
    else Some(0)
  }

  /** sign times abs gives the value back. */
  lemma SignTimesAbs(x: Int64)
    requires x != LongMin
    ensures Sign(Some(x)).value * Abs(Some(x)).value.value == x
  {
  }

  /** max over long?: null when either is null, otherwise the larger. */
  function Max(x: Option<Int64>, y: Option<Int64>): (r: Option<Int64>)
    ensures r.None? <==> x.None? || y.None?
    ensures r.Some? ==> r.value >= x.value && r.value >= y.value && (r.value == x.value || r.value == y.value)
  {
    if x.None? || y.None? then None else Some(if x.value >= y.value then x.value else y.value)
  }

  /** min over long?: null when either is null, otherwise the smaller. */
  function Min(x: Option<Int64>, y: Option<Int64>): (r: Option<Int64>)
    ensures r.None? <==> x.None? || y.None?
    ensures r.Some? ==> r.value <= x.value && r.value <= y.value && (r.value == x.value || r.value == y.value)
  {
    if x.None? || y.None? then None else Some(if x.value <= y.value then x.value else y.value)
  }

  /** max and min of two values are the two values. */
  lemma MaxMinPair(x: Int64, y: Int64)
    ensures Max(Some(x), Some(y)).value + Min(Some(x), Some(y)).value == x + y
    ensures Max(Some(x), Some(y)) == Max(Some(y), Some(x)) && Min(Some(x), Some(y)) == Min(Some(y), Some(x))
  {
  }

  /** max over decimal?: unlike every other max and min, a null side is skipped and the other
      argument returned. */
  function MaxDecimal(x: Option<real>, y: Option<real>): (r: Option<real>)
    ensures x.None? ==> r == y
    ensures y.None? ==> r == x
    ensures x.Some? && y.Some? ==> r.Some? && r.value >= x.value && r.value >= y.value && (r.value == x.value || r.value == y.value)
  {
    if x.None? then y
    else if y.None? then x
    else Some(if x.value >= y.value then x.value else y.value)
  }

  /** min over decimal?: null when either is null, otherwise the smaller. */
  function MinDecimal(x: Option<real>, y: Option<real>): (r: Option<real>)
    ensures r.None? <==> x.None? || y.None?
    ensures r.Some? ==> r.value <= x.value && r.value <= y.value && (r.value == x.value || r.value == y.value)
  {
    if x.None? || y.None? then None else Some(if x.value <= y.value then x.value else y.value)
  }

  /** The long? value `x` as a decimal?. */
  function ToDecimal(x: Option<Int64>): Option<real> {
    if x.None? then None else Some(x.value as real)
  }

  /** max and min over a decimal? and a long? (either order): null when either is null,
      otherwise the larger or smaller of the two as a decimal. */
  function MaxMixed(x: Option<real>, y: Option<Int64>): (r: Option<real>)
    ensures r.None? <==> x.None? || y.None?
    ensures r.Some? ==> r == MaxDecimal(x, ToDecimal(y))
  {
    if x.None? || y.None? then None
    else Some(if x.value >= y.value as real then x.value else y.value as real)
  }

  function MinMixed(x: Option<real>, y: Option<Int64>): (r: Option<real>)
    ensures r.None? <==> x.None? || y.None?
    ensures r.Some? ==> r == MinDecimal(x, ToDecimal(y))
  {
    if x.None? || y.None? then None
    else Some(if x.value <= y.value as real then x.value else y.value as real)
  }

  /** Only the decimal? max treats null as "no value": with one null argument it returns the
      other one, where max over long? and the mixed max return null. */
  lemma NullRulesDiffer(x: real, y: Int64)
    ensures MaxDecimal(Some(x), None) == Some(x) && MaxMixed(Some(x), None) == None
    ensures MaxDecimal(None, ToDecimal(Some(y))) == Some(y as real) && Max(None, Some(y)) == None
    ensures MinDecimal(Some(x), None) == None
  {
  }
}
