/**
 * `BdVersion` (validate / format / compare), `normalizeVersionRange`,
 * `checkVersionCompatibility` and `isValidVersionRange` of the shared utils
 * package. Version strings are `x.y.z` with three decimal segments of at most
 * three digits each; precedence is the numeric, left-to-right comparison of
 * item 11 of Semantic Versioning 2.0.0 restricted to the three core numbers.
 * The semver library itself is not modelled: its `valid`, `validRange` and
 * `satisfies` are parameters.
 */
module Versions {
  import opened Wrappers
  import opened Text

  // ---------------------------------------------------------------- numerals

  function DigitValue(c: char): nat requires IsDigit(c) { c as int - '0' as int }

  function DigitChar(d: nat): (c: char)
    requires d < 10
    ensures IsDigit(c) && DigitValue(c) == d
  {
    ('0' as int + d) as char
  }

  /** `parseInt(s, 10)` of an all-digit string. */
  function Value(s: string): nat
    requires AllDigits(s)
  {
    if s == [] then 0 else Value(s[..|s| - 1]) * 10 + DigitValue(s[|s| - 1])
  }

  /** `String(n)` of a non-negative integer: decimal, no leading zeros. */
  function Show(n: nat): (r: string)
    ensures |r| >= 1 && AllDigits(r)
    ensures n < 10 ==> |r| == 1
    ensures n >= 10 ==> r[0] != '0'
    ensures n <= 999 ==> |r| <= 3
  {
    if n < 10 then [DigitChar(n)] else Show(n / 10) + [DigitChar(n % 10)]
  }

  /** Reading back a printed number gives the number. */
  lemma {:induction false} ValueShow(n: nat)
    ensures Value(Show(n)) == n
  {
    if n >= 10 {
      var s := Show(n);
      ValueShow(n / 10);
      assert s[..|s| - 1] == Show(n / 10);
    }
  }

  lemma {:induction false} ValuePositive(s: string)
    requires AllDigits(s) && |s| >= 1 && s[0] != '0'
    ensures Value(s) >= 1
  {
    if |s| > 1 {
      ValuePositive(s[..|s| - 1]);
    }
  }

  /** A numeral without a leading zero is exactly what `String` prints for its value. */
  lemma {:induction false} ShowValue(s: string)
    requires AllDigits(s) && |s| >= 1 && (s[0] != '0' || |s| == 1)
    ensures Show(Value(s)) == s
  {
    if |s| > 1 {
      var init := s[..|s| - 1];
      ValuePositive(init);
      ShowValue(init);
      var v := Value(s);
      assert v / 10 == Value(init) && v % 10 == DigitValue(s[|s| - 1]);
      assert s == init + [s[|s| - 1]];
    }
  }

  lemma ShowInjective(m: nat, n: nat)
    requires Show(m) == Show(n)
    ensures m == n
  {
    ValueShow(m);
    ValueShow(n);
  }

  // ---------------------------------------------------------------- validate

  /** One segment of the validate pattern: `0|[1-9]\d{0,2}`. */
  predicate ValidSegment(s: string) {
    s == "0" || (1 <= |s| <= 3 && '1' <= s[0] <= '9' && AllDigits(s))
  }

  /** A valid segment is exactly the printed form of a number from 0 to 999. */
  lemma ValidSegmentIsShow(s: string)
    ensures ValidSegment(s) <==> AllDigits(s) && |s| >= 1 && Value(s) <= 999 && Show(Value(s)) == s
  {
    if ValidSegment(s) {
      ValidSegmentShown(s);
    }
    if AllDigits(s) && |s| >= 1 && Value(s) <= 999 && Show(Value(s)) == s {
      ShownValidSegment(s);
    }
  }

  lemma ValidSegmentShown(s: string)
    requires ValidSegment(s)
    ensures AllDigits(s) && |s| >= 1 && Value(s) <= 999 && Show(Value(s)) == s
  {
    ShowValue(s);
    if |s| >= 2 {
      ValueBound(s);
      assert Pow10(1) == 10 && Pow10(2) == 100 && Pow10(3) == 1000;
    }
  }

  lemma ShownValidSegment(s: string)
    requires AllDigits(s) && |s| >= 1 && Value(s) <= 999 && Show(Value(s)) == s
    ensures ValidSegment(s)
  {
    if Value(s) < 10 {
      assert s == [s[0]];
    }
  }

  lemma {:induction false} ValueBound(s: string)
    requires AllDigits(s) && |s| >= 1
    ensures Value(s) < Pow10(|s|)
  {
    if |s| > 1 { ValueBound(s[..|s| - 1]); }
  }

  function Pow10(k: nat): (r: nat)
    ensures r >= 1
  {
    if k == 0 then 1 else 10 * Pow10(k - 1)
  }

  lemma ShowValidSegment(n: nat)
    requires n <= 999
    ensures ValidSegment(Show(n))
  {
    ValueShow(n);
    ValidSegmentIsShow(Show(n));
  }

  /** `BdVersion.validate`, computed on the pieces of `version.split(".")`. */
  predicate Validate(version: string) {
    var parts := Split(version, '.');
    |parts| == 3 && ValidSegment(parts[0]) && ValidSegment(parts[1]) && ValidSegment(parts[2])
  }

  /** The regular expression's reading: three valid segments joined by dots. */
  ghost predicate MatchesPattern(version: string) {
    exists a, b, c :: ValidSegment(a) && ValidSegment(b) && ValidSegment(c) && version == a + "." + b + "." + c
  }

  lemma DotFree(s: string)
    requires ValidSegment(s)
    ensures '.' !in s
  {
    DigitsDotFree(s);
  }

  /** validate accepts exactly x.y.z with segments 0..999 and no leading zeros. */
  lemma ValidateIsPattern(version: string)
    ensures Validate(version) <==> MatchesPattern(version)
  {
    var parts := Split(version, '.');
    if Validate(version) {
      assert parts == [parts[0], parts[1], parts[2]];
      Join3(parts[0], parts[1], parts[2]);
    }
    if MatchesPattern(version) {
      var a, b, c :| ValidSegment(a) && ValidSegment(b) && ValidSegment(c) && version == a + "." + b + "." + c;
      DotFree(a); DotFree(b); DotFree(c);
      SplitJoin([a, b, c], '.');
      Join3(a, b, c);
    }
  }

  // ---------------------------------------------------------------- format

  /** Why `BdVersion.format` throws; segments are numbered from 1 as in the messages. */
  datatype FormatError = TooManySegments | NotANumber(segment: nat) | TooLarge(segment: nat)

  /** The `/^\d+$/` test. */
  predicate IsNumeral(s: string) { |s| >= 1 && AllDigits(s) }

  /** The parts after `while (parts.length < 3) parts.push("0")`. */
  function Padded(parts: seq<string>): (r: seq<string>)
    requires |parts| <= 3
    ensures |r| == 3 && r[..|parts|] == parts
    ensures forall i :: |parts| <= i < 3 ==> r[i] == "0"
    decreases 3 - |parts|
  {
    if |parts| == 3 then parts else Padded(parts + ["0"])
  }

  /** The first segment, at index `from` or later, that the map over parts rejects. */
  function FirstBad(parts: seq<string>, from: nat): (r: Option<FormatError>)
    requires from <= |parts|
    decreases |parts| - from
  {
    if from == |parts| then None
    else if !IsNumeral(parts[from]) then Some(NotANumber(from + 1))
    else if Value(parts[from]) > 999 then Some(TooLarge(from + 1))
    else FirstBad(parts, from + 1)
  }

  predicate SegmentOk(s: string) { IsNumeral(s) && Value(s) <= 999 }

  lemma {:induction false} FirstBadNone(parts: seq<string>, from: nat)
    requires from <= |parts|
    decreases |parts| - from
    ensures FirstBad(parts, from).None? <==> forall i :: from <= i < |parts| ==> SegmentOk(parts[i])
  {
    if from < |parts| {
      FirstBadNone(parts, from + 1);
    }
  }

  /** Each segment printed back from its numeric value. */
  function Normalized(parts: seq<string>): (r: seq<string>)
    requires forall i :: 0 <= i < |parts| ==> AllDigits(parts[i])
    ensures |r| == |parts|
    ensures forall i :: 0 <= i < |parts| ==> r[i] == Show(Value(parts[i]))
  {
    if parts == [] then [] else [Show(Value(parts[0]))] + Normalized(parts[1..])
  }

  /** What `BdVersion.format` returns or throws. */
  function FormatOf(input: string): (r: Result<string, FormatError>)
  {
    var parts := Split(input, '.');
    if |parts| > 3 then Err(TooManySegments)
    else
      var padded := Padded(parts);
      match FirstBad(padded, 0)
      case Some(e) => Err(e)
      case None =>
        FirstBadNone(padded, 0);
        Ok(Join(Normalized(padded), '.'))
  }

  /** `BdVersion.format`: pads the parts with "0" in a loop, then normalises them one by one. */
  method Format(input: string) returns (r: Result<string, FormatError>)
    ensures r == FormatOf(input)
  {
    var parts := Split(input, '.');
    if |parts| > 3 {
      return Err(TooManySegments);
    }
    ghost var original := parts;
    while |parts| < 3
      invariant |original| <= |parts| <= 3
      invariant Padded(parts) == Padded(original)
    {
      parts := parts + ["0"];
    }
    assert parts == Padded(original);
    var normalized: seq<string> := [];
    var i := 0;
    while i < |parts|
      invariant 0 <= i <= |parts| && |normalized| == i
      invariant FirstBad(parts, 0) == FirstBad(parts, i)
      invariant forall k :: 0 <= k < i ==> SegmentOk(parts[k]) && normalized[k] == Show(Value(parts[k]))
    {
      if !IsNumeral(parts[i]) {
        return Err(NotANumber(i + 1));
      }
      var num := Value(parts[i]);
      if num > 999 {
        return Err(TooLarge(i + 1));
      }
      normalized := normalized + [Show(num)];
      i := i + 1;
    }
    FirstBadNone(parts, 0);
    assert normalized == Normalized(parts);
    return Ok(Join(normalized, '.'));
  }

  lemma PaddedOk(parts: seq<string>)
    requires |parts| <= 3
    requires forall i :: 0 <= i < |parts| ==> SegmentOk(parts[i])
    ensures forall i :: 0 <= i < 3 ==> SegmentOk(Padded(parts)[i])
  {
    var p := Padded(parts);
    forall i | 0 <= i < 3 ensures SegmentOk(p[i]) {
      if i < |parts| { assert p[i] == p[..|parts|][i]; }
    }
  }

  lemma Join3(a: string, b: string, c: string)
    ensures Join([a, b, c], '.') == a + "." + b + "." + c
  {
    assert [a, b, c][1..] == [b, c];
    assert [b, c][1..] == [c];
    assert Join([b, c], '.') == b + "." + c;
    assert Join([a, b, c], '.') == a + "." + (b + "." + c);
  }

  /** format succeeds exactly when there are at most 3 parts, each a numeral of value at most 999. */
  lemma FormatSucceeds(input: string)
    ensures FormatOf(input).Ok? <==>
      |Split(input, '.')| <= 3 && forall i :: 0 <= i < |Split(input, '.')| ==> SegmentOk(Split(input, '.')[i])
  {
    var parts := Split(input, '.');
    if |parts| <= 3 {
      var padded := Padded(parts);
      FirstBadNone(padded, 0);
      if forall i :: 0 <= i < |parts| ==> SegmentOk(parts[i]) {
        PaddedOk(parts);
      } else {
        var i :| 0 <= i < |parts| && !SegmentOk(parts[i]);
        assert padded[i] == padded[..|parts|][i];
      }
    }
  }

  /** format rejects more than three segments, and names the first bad segment otherwise. */
  lemma FormatErrors(input: string)
    ensures |Split(input, '.')| > 3 ==> FormatOf(input) == Err(TooManySegments)
    ensures FormatOf(input).Err? && FormatOf(input).error.NotANumber? ==>
      var k := FormatOf(input).error.segment;
      1 <= k <= |Split(input, '.')| && !IsNumeral(Split(input, '.')[k - 1])
    ensures FormatOf(input).Err? && FormatOf(input).error.TooLarge? ==>
      var k := FormatOf(input).error.segment;
      1 <= k <= |Split(input, '.')| && IsNumeral(Split(input, '.')[k - 1]) && Value(Split(input, '.')[k - 1]) > 999
  {
    var parts := Split(input, '.');
    if |parts| <= 3 {
      var padded := Padded(parts);
      FirstBadInRange(padded, 0);
      assert Value("0") == 0;
      assert forall i :: |parts| <= i < 3 ==> SegmentOk(padded[i]);
      if FirstBad(padded, 0).Some? {
        var k := FirstBad(padded, 0).value.segment;
        assert padded[k - 1] == padded[..|parts|][k - 1];
      }
    }
  }

  lemma {:induction false} FirstBadInRange(parts: seq<string>, from: nat)
    requires from <= |parts|
    decreases |parts| - from
    ensures FirstBad(parts, from).Some? ==> !FirstBad(parts, from).value.TooManySegments?
    ensures FirstBad(parts, from).Some? ==>
      var k := FirstBad(parts, from).value.segment;
      from + 1 <= k <= |parts| && !SegmentOk(parts[k - 1]) &&
      (FirstBad(parts, from).value.NotANumber? ==> !IsNumeral(parts[k - 1])) &&
      (FirstBad(parts, from).value.TooLarge? ==> IsNumeral(parts[k - 1]) && Value(parts[k - 1]) > 999)
  {
    if from < |parts| && SegmentOk(parts[from]) {
      FirstBadInRange(parts, from + 1);
    }
  }

  /** The three numbers a formatted version stands for: the values of the padded parts. */
  function Numbers(input: string): (r: Option<(nat, nat, nat)>)
  {
    var parts := Split(input, '.');
    if |parts| <= 3 && FirstBad(Padded(parts), 0).None? then
      var p := Padded(parts);
      FirstBadNone(p, 0);
      Some((Value(p[0]), Value(p[1]), Value(p[2])))
    else None
  }

  /**
   * format pads to three segments and strips leading zeros: its output is
   * the three numbers printed without leading zeros, joined by dots, and it
   * passes validate.
   */
  lemma FormatOutput(input: string)
    requires FormatOf(input).Ok?
    ensures Numbers(input).Some?
    ensures var (x, y, z) := Numbers(input).value;
      x <= 999 && y <= 999 && z <= 999 &&
      FormatOf(input).value == Show(x) + "." + Show(y) + "." + Show(z)
    ensures Validate(FormatOf(input).value)
  {
    var parts := Split(input, '.');
    var p := Padded(parts);
    FirstBadNone(p, 0);
    var n := Normalized(p);
    assert n == [n[0], n[1], n[2]];
    Join3(n[0], n[1], n[2]);
    ShowValidSegment(Value(p[0]));
    ShowValidSegment(Value(p[1]));
    ShowValidSegment(Value(p[2]));
    ValidateIsPattern(FormatOf(input).value);
  }

  /** A valid version is its own formatted form. */
  lemma FormatValid(v: string)
    requires Validate(v)
    ensures FormatOf(v) == Ok(v)
  {
    var parts := Split(v, '.');
    forall i | 0 <= i < 3 ensures SegmentOk(parts[i]) && Show(Value(parts[i])) == parts[i] {
      ValidSegmentIsShow(parts[i]);
    }
    FormatSucceeds(v);
    assert Padded(parts) == parts;
    var n := Normalized(parts);
    assert n == parts;
  }

  /** format is idempotent: formatting a formatted version changes nothing. */
  lemma FormatIdempotent(input: string)
    requires FormatOf(input).Ok?
    ensures FormatOf(FormatOf(input).value) == FormatOf(input)
  {
    FormatOutput(input);
    FormatValid(FormatOf(input).value);
  }

  /** The numbers of a formatted version are those of the original input. */
  lemma NumbersOfFormatted(input: string)
    requires FormatOf(input).Ok?
    ensures Numbers(FormatOf(input).value) == Numbers(input)
  {
    FormatOutput(input);
    var (x, y, z) := Numbers(input).value;
    NumbersOfShown(x, y, z);
  }

  /** Three printed numbers joined by dots read back as those numbers. */
  lemma NumbersOfShown(x: nat, y: nat, z: nat)
    requires x <= 999 && y <= 999 && z <= 999
    ensures Numbers(Show(x) + "." + Show(y) + "." + Show(z)) == Some((x, y, z))
  {
    var out := Show(x) + "." + Show(y) + "." + Show(z);
    var parts := [Show(x), Show(y), Show(z)];
    ShowValidSegment(x); ShowValidSegment(y); ShowValidSegment(z);
    DotFree(Show(x)); DotFree(Show(y)); DotFree(Show(z));
    Join3(Show(x), Show(y), Show(z));
    SplitJoin(parts, '.');
    assert Split(out, '.') == parts;
    assert Padded(parts) == parts;
    ValueShow(x); ValueShow(y); ValueShow(z);
    FirstBadNone(parts, 0);
  }

  /** "5" formats to "5.0.0": missing segments are padded with zeros. */
  lemma FormatPadsExample()
    ensures FormatOf("5") == Ok("5.0.0")
  {
    SplitFree("5", '.');
    var p := Padded(["5"]);
    assert p == ["5", "0", "0"];
    assert Value("5") == 5 && Value("0") == 0;
    FirstBadNone(p, 0);
    assert Show(5) == "5" && Show(0) == "0";
    assert Normalized(p) == ["5", "0", "0"];
    Join3("5", "0", "0");
    assert "5" + "." + "0" + "." + "0" == "5.0.0";
    assert FormatOf("5") == Ok(Join(Normalized(p), '.'));
  }

  /**
   * Three numeral segments format to their values printed without leading
   * zeros, so "01.002.0003" becomes "1.2.3".
   */
  lemma FormatThreeSegments(a: string, b: string, c: string)
    requires SegmentOk(a) && SegmentOk(b) && SegmentOk(c)
    ensures FormatOf(a + "." + b + "." + c) == Ok(Show(Value(a)) + "." + Show(Value(b)) + "." + Show(Value(c)))
  {
    var input := a + "." + b + "." + c;
    DigitsDotFree(a); DigitsDotFree(b); DigitsDotFree(c);
    Join3(a, b, c);
    SplitJoin([a, b, c], '.');
    FormatSucceeds(input);
    FormatOutput(input);
    assert Padded([a, b, c]) == [a, b, c];
  }

  lemma DigitsDotFree(s: string)
    requires AllDigits(s)
    ensures '.' !in s
  {
    forall i | 0 <= i < |s| ensures s[i] != '.' {
      assert IsDigit(s[i]);
    }
  }

  // ---------------------------------------------------------------- compare

  /** -1, 0 or 1 for two numbers. */
  function Sign(a: nat, b: nat): int { if a > b then 1 else if a < b then -1 else 0 }

  /** `BdVersion.compare`: formats both (throwing as format does), reads the numbers back from the formatted strings and compares major, minor, patch in turn. */
  function Compare(version1: string, version2: string): (r: Result<int, FormatError>)
  {
    match FormatOf(version1)
    case Err(e) => Err(e)
    case Ok(f1) =>
      match FormatOf(version2)
      case Err(e) => Err(e)
      case Ok(f2) =>
        FormatOutput(version1);
        FormatOutput(version2);
        NumbersOfFormatted(version1);
        NumbersOfFormatted(version2);
        Ok(CompareNumbers(Numbers(f1).value, Numbers(f2).value))
  }

  /** The cascade of the three `!==` tests on major, minor and patch. */
  function CompareNumbers(a: (nat, nat, nat), b: (nat, nat, nat)): int
  {
    if a.0 != b.0 then Sign(a.0, b.0)
    else if a.1 != b.1 then Sign(a.1, b.1)
    else Sign(a.2, b.2)
  }

  /** The lexicographic order on (major, minor, patch). */
  predicate LexLess(a: (nat, nat, nat), b: (nat, nat, nat)) {
    a.0 < b.0 || (a.0 == b.0 && (a.1 < b.1 || (a.1 == b.1 && a.2 < b.2)))
  }

  /**
   * compare fails exactly when one of the versions does not format (the first
   * one's error wins); otherwise it is 1, -1 or 0 as the (major, minor, patch)
   * triples compare lexicographically.
   */
  lemma CompareMeaning(v1: string, v2: string)
    ensures Compare(v1, v2).Err? <==> FormatOf(v1).Err? || FormatOf(v2).Err?
    ensures FormatOf(v1).Err? ==> Compare(v1, v2) == Err(FormatOf(v1).error)
    ensures Compare(v1, v2).Ok? ==>
      var a := Numbers(v1).value;
      var b := Numbers(v2).value;
      (Compare(v1, v2).value == 1 <==> LexLess(b, a)) &&
      (Compare(v1, v2).value == -1 <==> LexLess(a, b)) &&
      (Compare(v1, v2).value == 0 <==> a == b)
  {
    if FormatOf(v1).Ok? && FormatOf(v2).Ok? {
      FormatOutput(v1);
      FormatOutput(v2);
      NumbersOfFormatted(v1);
      NumbersOfFormatted(v2);
      assert Compare(v1, v2) == Ok(CompareNumbers(Numbers(v1).value, Numbers(v2).value));
      CompareNumbersIsLex(Numbers(v1).value, Numbers(v2).value);
    }
  }

  lemma CompareNumbersIsLex(a: (nat, nat, nat), b: (nat, nat, nat))
    ensures CompareNumbers(a, b) == 1 <==> LexLess(b, a)
    ensures CompareNumbers(a, b) == -1 <==> LexLess(a, b)
    ensures CompareNumbers(a, b) == 0 <==> a == b
  {
  }

  /** compare is antisymmetric. */
  lemma CompareAntisymmetric(v1: string, v2: string)
    requires Compare(v1, v2).Ok?
    ensures Compare(v2, v1) == Ok(-Compare(v1, v2).value)
  {
    CompareMeaning(v1, v2);
    CompareMeaning(v2, v1);
    var a, b := Numbers(v1).value, Numbers(v2).value;
    CompareNumbersIsLex(a, b);
    CompareNumbersIsLex(b, a);
    assert Compare(v2, v1).Ok?;
    var x, y := Compare(v1, v2).value, Compare(v2, v1).value;
    assert x == 1 || x == -1 || x == 0;
    assert y == -x;
  }

  /** compare returns 0 exactly when the formatted forms are equal. */
  lemma CompareZero(v1: string, v2: string)
    requires Compare(v1, v2).Ok?
    ensures Compare(v1, v2).value == 0 <==> FormatOf(v1) == FormatOf(v2)
  {
    CompareMeaning(v1, v2);
    FormatOutput(v1);
    FormatOutput(v2);
    var (a0, a1, a2) := Numbers(v1).value;
    var (b0, b1, b2) := Numbers(v2).value;
    if FormatOf(v1) == FormatOf(v2) {
      NumbersOfFormatted(v1);
      NumbersOfFormatted(v2);
    }
  }

  // ---------------------------------------------------------------- ranges

  /** `normalizeVersionRange`: every "≥" becomes ">=" and every "≤" becomes "<=". */
  function NormalizeRange(range: string): (r: string)
    ensures '≥' !in r && '≤' !in r
    ensures '≥' !in range && '≤' !in range ==> r == range
  {
    ReplaceCharMeaning(range, '≥', ">=");
    ReplaceCharMeaning(ReplaceChar(range, '≥', ">="), '≤', "<=");
    ReplaceCharKeepsAbsent(ReplaceChar(range, '≥', ">="), '≤', "<=", '≥');
    ReplaceChar(ReplaceChar(range, '≥', ">="), '≤', "<=")
  }

  /** Only the two symbols are rewritten: the rewrite works character by character, every other character stays. */
  lemma NormalizeRangeLocal(a: string, b: string, c: char)
    ensures NormalizeRange(a + b) == NormalizeRange(a) + NormalizeRange(b)
    ensures NormalizeRange([c]) == if c == '≥' then ">=" else if c == '≤' then "<=" else [c]
  {
    ReplaceCharConcat(a, b, '≥', ">=");
    ReplaceCharConcat(ReplaceChar(a, '≥', ">="), ReplaceChar(b, '≥', ">="), '≤', "<=");
    assert [c][1..] == [];
    ReplaceCharMeaning([c], '≥', ">=");
    ReplaceCharMeaning(ReplaceChar([c], '≥', ">="), '≤', "<=");
  }

  /** The semver library, which the model does not open: the queries the services ask of it. */
  datatype Semver = Semver(valid: string -> bool, validRange: string -> bool, satisfies: (string, string) -> bool,
                           gt: (string, string) -> bool)

  /** Why a platform version is incompatible; each carries what the message quotes. */
  datatype Incompatibility =
    | InvalidPlatformVersion(platformVersion: string)
    | InvalidRangeSyntax(range: string)
    | Unsatisfied(platformVersion: string, range: string)

  /** `{ compatible, reason? }`: a reason is given exactly when incompatible. */
  datatype Compatibility = Compatible | Incompatible(reason: Incompatibility)

  /** `engine.buildingai`, absent when there is no engine config at all. */
  function CheckCompatibility(semver: Semver, platformVersion: string, buildingai: Option<string>): (r: Compatibility)
    ensures buildingai.None? || buildingai == Some("") ==> r == Compatible
    ensures buildingai.Some? && buildingai.value != "" && !semver.valid(platformVersion) ==>
      r == Incompatible(InvalidPlatformVersion(platformVersion))
    ensures r == Compatible <==>
      buildingai.None? || buildingai.value == "" ||
      (semver.valid(platformVersion) && semver.validRange(NormalizeRange(buildingai.value))
       && semver.satisfies(platformVersion, NormalizeRange(buildingai.value)))
    ensures r.Incompatible? && r.reason.InvalidRangeSyntax? ==>
      r.reason.range == buildingai.value && semver.valid(platformVersion) && !semver.validRange(NormalizeRange(buildingai.value))
  {
    if buildingai.None? || buildingai.value == "" then Compatible
    else
      var required := buildingai.value;
      if !semver.valid(platformVersion) then Incompatible(InvalidPlatformVersion(platformVersion))
      else
        var normalized := NormalizeRange(required);
        if !semver.validRange(normalized) then Incompatible(InvalidRangeSyntax(required))
        else if semver.satisfies(platformVersion, normalized) then Compatible
        else Incompatible(Unsatisfied(platformVersion, required))
  }

  /** `isValidVersionRange`: false for an empty range, else whether the normalised range parses. */
  function IsValidVersionRange(semver: Semver, range: string): (r: bool)
    ensures range == "" ==> !r
    ensures r ==> semver.validRange(NormalizeRange(range))
    ensures range != "" && semver.validRange(NormalizeRange(range)) ==> r
  {
    range != "" && semver.validRange(NormalizeRange(range))
  }

  /**
   * An engine requirement that is present and met is a valid range, and a
   * requirement whose range does not parse never makes a valid platform
   * version compatible.
   */
  lemma CompatibleNeedsValidRange(semver: Semver, platformVersion: string, required: string)
    requires required != ""
    ensures CheckCompatibility(semver, platformVersion, Some(required)) == Compatible ==> IsValidVersionRange(semver, required)
    ensures semver.valid(platformVersion) && !IsValidVersionRange(semver, required) ==>
      CheckCompatibility(semver, platformVersion, Some(required)) == Incompatible(InvalidRangeSyntax(required))
  {
  }
}
