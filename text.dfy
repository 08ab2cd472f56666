/**
 * The JavaScript string and array built-ins the services rely on, stated on
 * `seq<char>` and `seq<T>`: `split` and `join` on a one-character separator,
 * `trim`, ASCII `toLowerCase`/`toUpperCase`, `startsWith`/`endsWith`,
 * `indexOf`/`includes`, `replace` of one character, and `Array.prototype.slice`
 * with a single start argument.
 */
module Text {
  import opened Wrappers

  // ---------------------------------------------------------------- chars

  predicate IsDigit(c: char) { '0' <= c <= '9' }

  predicate AllDigits(s: string) { forall i :: 0 <= i < |s| ==> IsDigit(s[i]) }

  /** The characters `String.prototype.trim` removes: WhiteSpace and LineTerminator of ECMA-262. */
  predicate IsSpace(c: char) {
    c == ' ' || c == '\t' || c == '\n' || c == '\r' || c == '\U{000B}' || c == '\U{000C}'
    || c == '\U{00A0}' || c == '\U{1680}' || ('\U{2000}' <= c <= '\U{200A}')
    || c == '\U{2028}' || c == '\U{2029}' || c == '\U{202F}' || c == '\U{205F}'
    || c == '\U{3000}' || c == '\U{FEFF}'
  }

  predicate IsUpper(c: char) { 'A' <= c <= 'Z' }

  predicate IsLower(c: char) { 'a' <= c <= 'z' }

  function LowerChar(c: char): (r: char)
    ensures !IsUpper(r)
    ensures !IsUpper(c) ==> r == c
  {
    if IsUpper(c) then (c as int + 32) as char else c
  }

  function UpperChar(c: char): (r: char)
    ensures !IsLower(r)
    ensures !IsLower(c) ==> r == c
  {
    if IsLower(c) then (c as int - 32) as char else c
  }

  function ToLower(s: string): (r: string)
    ensures |r| == |s|
    ensures forall i :: 0 <= i < |s| ==> r[i] == LowerChar(s[i])
  {
    if s == [] then [] else [LowerChar(s[0])] + ToLower(s[1..])
  }

  function ToUpper(s: string): (r: string)
    ensures |r| == |s|
    ensures forall i :: 0 <= i < |s| ==> r[i] == UpperChar(s[i])
  {
    if s == [] then [] else [UpperChar(s[0])] + ToUpper(s[1..])
  }

  // ---------------------------------------------------------------- prefixes

  predicate StartsWith(s: string, p: string) { |p| <= |s| && s[..|p|] == p }

  predicate EndsWith(s: string, p: string) { |p| <= |s| && s[|s| - |p|..] == p }

  /** `p` occurs in `s` at position `k`. */
  predicate OccursAt(s: string, p: string, k: int) { 0 <= k && k + |p| <= |s| && s[k..k + |p|] == p }

  lemma OccursShift(s: string, p: string, k: int)
    requires |s| >= 1 && k >= 1
    ensures OccursAt(s, p, k) <==> OccursAt(s[1..], p, k - 1)
  {
    if k + |p| <= |s| {
      var x, y := s[k..k + |p|], s[1..][k - 1..k - 1 + |p|];
      assert |x| == |y|;
      forall j | 0 <= j < |p| ensures x[j] == y[j] {
        assert x[j] == s[k + j];
        assert y[j] == s[1..][k - 1 + j];
      }
      assert x == y;
    }
  }

  /** `s.indexOf(p)`: the first position where `p` occurs in `s`. */
  function IndexOf(s: string, p: string): (r: Option<nat>)
    ensures r.Some? ==> OccursAt(s, p, r.value)
    ensures r.Some? ==> forall k :: 0 <= k < r.value ==> !OccursAt(s, p, k)
    ensures r.None? ==> forall k :: !OccursAt(s, p, k)
  {
    if |s| < |p| then None
    else if s[..|p|] == p then Some(0)
    else
      match IndexOf(s[1..], p)
      case None =>
        assert forall k :: k >= 1 ==> (OccursAt(s, p, k) <==> OccursAt(s[1..], p, k - 1)) by {
          forall k | k >= 1 { OccursShift(s, p, k); }
        }
        None
      case Some(i) =>
        assert forall k :: k >= 1 ==> (OccursAt(s, p, k) <==> OccursAt(s[1..], p, k - 1)) by {
          forall k | k >= 1 { OccursShift(s, p, k); }
        }
        Some(i + 1)
  }

  /** `s.includes(p)`. */
  predicate Contains(s: string, p: string) { IndexOf(s, p).Some? }

  lemma ContainsAt(s: string, p: string, k: nat)
    requires OccursAt(s, p, k)
    ensures Contains(s, p)
  {
  }

  lemma ContainsInPrefix(s: string, p: string, t: string)
    requires Contains(s, p)
    ensures Contains(s + t, p)
  {
    var k := IndexOf(s, p).value;
    assert (s + t)[k..k + |p|] == s[k..k + |p|];
    ContainsAt(s + t, p, k);
  }

  lemma ContainsInSuffix(s: string, p: string, t: string)
    requires Contains(s, p)
    ensures Contains(t + s, p)
  {
    var k := IndexOf(s, p).value;
    assert (t + s)[|t| + k..|t| + k + |p|] == s[k..k + |p|];
    ContainsAt(t + s, p, |t| + k);
  }

  // ---------------------------------------------------------------- trim

  function TrimStart(s: string): (r: string)
    ensures r == [] || !IsSpace(r[0])
    ensures |r| <= |s| && r == s[|s| - |r|..]
    ensures forall i :: 0 <= i < |s| - |r| ==> IsSpace(s[i])
  {
    if s != [] && IsSpace(s[0]) then TrimStart(s[1..]) else s
  }

  function TrimEnd(s: string): (r: string)
    ensures r == [] || !IsSpace(r[|r| - 1])
    ensures |r| <= |s| && r == s[..|r|]
    ensures forall i :: |r| <= i < |s| ==> IsSpace(s[i])
  {
    if s != [] && IsSpace(s[|s| - 1]) then TrimEnd(s[..|s| - 1]) else s
  }

  /** `s.trim()`: strips leading and trailing white space and line terminators. */
  function Trim(s: string): (r: string)
    ensures r == [] || (!IsSpace(r[0]) && !IsSpace(r[|r| - 1]))
  {
    TrimEndKeepsStart(TrimStart(s));
    TrimEnd(TrimStart(s))
  }

  lemma TrimEndKeepsStart(s: string)
    requires s == [] || !IsSpace(s[0])
    ensures TrimEnd(s) == [] || !IsSpace(TrimEnd(s)[0])
  {
  }

  lemma TrimStartFixed(s: string)
    requires s == [] || !IsSpace(s[0])
    ensures TrimStart(s) == s
  {
  }

  lemma TrimEndFixed(s: string)
    requires s == [] || !IsSpace(s[|s| - 1])
    ensures TrimEnd(s) == s
  {
  }

  /** Trimming twice is trimming once. */
  lemma TrimIdempotent(s: string)
    ensures Trim(Trim(s)) == Trim(s)
  {
    var t := Trim(s);
    TrimStartFixed(t);
    TrimEndFixed(t);
  }

  lemma TrimNoSpaceEnds(s: string)
    requires s == [] || (!IsSpace(s[0]) && !IsSpace(s[|s| - 1]))
    ensures Trim(s) == s
  {
    TrimStartFixed(s);
    TrimEndFixed(s);
  }

  /** The characters before the first `c`. */
  function UpTo(s: string, c: char): (r: string)
    ensures |r| <= |s| && r == s[..|r|] && c !in r
    ensures |r| < |s| ==> s[|r|] == c
  {
    if s == [] || s[0] == c then [] else [s[0]] + UpTo(s[1..], c)
  }

  lemma {:induction false} UpToOf(x: string, rest: string, c: char)
    requires c !in x
    ensures UpTo(x + [c] + rest, c) == x
  {
    if x == [] {
      assert x + [c] + rest == [c] + rest;
    } else {
      assert (x + [c] + rest)[1..] == x[1..] + [c] + rest;
      UpToOf(x[1..], rest, c);
    }
  }

  // ---------------------------------------------------------------- split / join

  /** `s.split(sep)` for a one-character separator: never empty, pieces free of `sep`. */
  function Split(s: string, sep: char): (r: seq<string>)
    ensures |r| >= 1
    ensures forall i :: 0 <= i < |r| ==> sep !in r[i]
    ensures Join(r, sep) == s
  {
    if s == [] then [""]
    else if s[0] == sep then
      var t := Split(s[1..], sep);
      JoinCons("", t, sep);
      [""] + t
    else
      var t := Split(s[1..], sep);
      JoinHead(s[0], t, sep);
      [[s[0]] + t[0]] + t[1..]
  }

  /** `parts.join(sep)`. */
  function Join(parts: seq<string>, sep: char): string
  {
    if |parts| == 0 then ""
    else if |parts| == 1 then parts[0]
    else parts[0] + [sep] + Join(parts[1..], sep)
  }

  lemma JoinCons(x: string, t: seq<string>, sep: char)
    requires |t| >= 1
    ensures Join([x] + t, sep) == x + [sep] + Join(t, sep)
  {
    assert ([x] + t)[1..] == t;
  }

  lemma JoinHead(c: char, t: seq<string>, sep: char)
    requires |t| >= 1
    ensures Join([[c] + t[0]] + t[1..], sep) == [c] + Join(t, sep)
  {
    var u := [[c] + t[0]] + t[1..];
    if |t| > 1 {
      assert u[1..] == t[1..];
    }
  }

  /** Splitting a join of separator-free pieces gives the pieces back. */
  lemma {:induction false} SplitJoin(parts: seq<string>, sep: char)
    requires |parts| >= 1
    requires forall i :: 0 <= i < |parts| ==> sep !in parts[i]
    ensures Split(Join(parts, sep), sep) == parts
  {
    if |parts| == 1 {
      SplitFree(parts[0], sep);
    } else {
      SplitJoin(parts[1..], sep);
      SplitSeparated(parts[0], Join(parts[1..], sep), sep);
    }
  }

  lemma {:induction false} SplitFree(s: string, sep: char)
    requires sep !in s
    ensures Split(s, sep) == [s]
  {
    if s != [] {
      SplitFree(s[1..], sep);
    }
  }

  /** Splitting `x + sep + y` when `x` is free of the separator. */
  lemma {:induction false} SplitSeparated(x: string, y: string, sep: char)
    requires sep !in x
    ensures Split(x + [sep] + y, sep) == [x] + Split(y, sep)
  {
    var s := x + [sep] + y;
    SplitHead(s, sep);
    if x == [] {
      assert s[0] == sep && s[1..] == y;
    } else {
      assert s[0] == x[0] && s[0] != sep;
      assert s[1..] == x[1..] + [sep] + y;
      SplitSeparated(x[1..], y, sep);
      var t := Split(s[1..], sep);
      assert t == [x[1..]] + Split(y, sep);
      assert t[0] == x[1..] && t[1..] == Split(y, sep);
      assert [x[0]] + x[1..] == x;
    }
  }

  lemma SplitHead(s: string, sep: char)
    requires s != []
    ensures var t := Split(s[1..], sep);
      Split(s, sep) == if s[0] == sep then [""] + t else [[s[0]] + t[0]] + t[1..]
  {
  }

  // ---------------------------------------------------------------- replace

  /** `s.replace(/c/g, rep)`: every occurrence of the character `c` becomes `rep`. */
  function ReplaceChar(s: string, c: char, rep: string): string {
    if s == [] then []
    else (if s[0] == c then rep else [s[0]]) + ReplaceChar(s[1..], c, rep)
  }

  /** A one-character replacement keeps the length; a replacement without `c` leaves no `c`; without `c` nothing changes. */
  lemma {:induction false} ReplaceCharMeaning(s: string, c: char, rep: string)
    ensures |rep| == 1 ==> |ReplaceChar(s, c, rep)| == |s|
    ensures c !in rep ==> c !in ReplaceChar(s, c, rep)
    ensures c !in s ==> ReplaceChar(s, c, rep) == s
  {
    if s != [] {
      ReplaceCharMeaning(s[1..], c, rep);
      assert s == [s[0]] + s[1..];
    }
  }

  lemma {:induction false} ReplaceCharKeepsAbsent(s: string, c: char, rep: string, d: char)
    requires d !in s && d !in rep
    ensures d !in ReplaceChar(s, c, rep)
  {
    if s != [] {
      ReplaceCharKeepsAbsent(s[1..], c, rep, d);
    }
  }

  lemma {:induction false} ReplaceCharConcat(s: string, t: string, c: char, rep: string)
    ensures ReplaceChar(s + t, c, rep) == ReplaceChar(s, c, rep) + ReplaceChar(t, c, rep)
  {
    if s == [] {
      assert s + t == t;
    } else {
      var st := s + t;
      assert st[0] == s[0] && st[1..] == s[1..] + t;
      ReplaceCharConcat(s[1..], t, c, rep);
      var head := if s[0] == c then rep else [s[0]];
      ReplaceCharHead(st, c, rep);
      ReplaceCharHead(s, c, rep);
      AppendAssoc(head, ReplaceChar(s[1..], c, rep), ReplaceChar(t, c, rep));
    }
  }

  lemma ReplaceCharHead(s: string, c: char, rep: string)
    requires s != []
    ensures ReplaceChar(s, c, rep) == (if s[0] == c then rep else [s[0]]) + ReplaceChar(s[1..], c, rep)
  {
  }

  lemma AppendAssoc<T>(x: seq<T>, y: seq<T>, z: seq<T>)
    ensures x + (y + z) == (x + y) + z
  {
  }

  // ---------------------------------------------------------------- arrays

  /**
   * `a.slice(start)`: a negative start counts from the end (clamped at 0),
   * a non-negative one from the front (clamped at the length); `slice(-0)`
   * is `slice(0)`, the whole array.
   */
  function Slice<T>(a: seq<T>, start: int): (r: seq<T>)
    ensures start < 0 ==> r == a[if |a| + start < 0 then 0 else |a| + start..]
    ensures start >= 0 ==> r == a[if start > |a| then |a| else start..]
    ensures |r| <= |a| && r == a[|a| - |r|..]
  {
    if start < 0 then a[if |a| + start < 0 then 0 else |a| + start..]
    else a[if start > |a| then |a| else start..]
  }
}
