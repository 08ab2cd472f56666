/**
 * The `extension` command of the CLI: identifier validation and
 * normalisation for `create` and `release`, the schema name, the default
 * display name, the version offered by `release`, and the interactive loops
 * that re-prompt until an answer is accepted. The terminal is a finite
 * sequence of typed answers; a loop that runs out of answers yields `None`.
 */
module CliExtension {
  import opened Wrappers
  import opened Text

  const Prefix: string := "buildingai-"

  /** `prompt`: the trimmed answer, or the default when that is empty. */
  function Prompt(answer: string, defaultValue: string): (r: string)
    ensures Trim(answer) != "" ==> r == Trim(answer)
    ensures Trim(answer) == "" ==> r == defaultValue
  {
    if Trim(answer) != "" then Trim(answer) else defaultValue
  }

  // ---------------------------------------------------------------- validateIdentifier

  datatype Validation = Valid | Invalid(message: string)

  /** `[a-z0-9-]`. */
  predicate IsIdentifierChar(c: char) { IsLower(c) || IsDigit(c) || c == '-' }

  /** `validateIdentifier`: the checks in source order, each with its message. */
  function ValidateIdentifier(identifier: string): Validation
  {
    if identifier == "" then Invalid("Identifier is required")
    else if !StartsWith(identifier, Prefix) then Invalid("Identifier must start with 'buildingai-'")
    else if !(forall i :: 0 <= i < |identifier| ==> IsIdentifierChar(identifier[i])) then
      Invalid("Identifier can only contain lowercase letters, numbers, and hyphens")
    else if |identifier| < 12 then Invalid("Identifier must be at least 12 characters (including 'buildingai-')")
    else Valid
  }

  /** An identifier is valid iff it starts with the prefix, has only [a-z0-9-], and at least one character after the prefix. */
  lemma ValidateIdentifierMeaning(identifier: string)
    ensures ValidateIdentifier(identifier) == Valid <==>
      StartsWith(identifier, Prefix) && |identifier| >= 12 &&
      forall i :: 0 <= i < |identifier| ==> IsIdentifierChar(identifier[i])
    ensures identifier == "" ==> ValidateIdentifier(identifier) == Invalid("Identifier is required")
  {
  }

  // ---------------------------------------------------------------- normalisation

  /** Release: the prefix is added only when the answer does not already start with it. */
  function ReleaseIdentifier(raw: string): (r: string)
    ensures StartsWith(r, Prefix)
    ensures StartsWith(raw, Prefix) ==> r == raw
    ensures !StartsWith(raw, Prefix) ==> r == Prefix + raw
  {
    if StartsWith(raw, Prefix) then raw else Prefix + raw
  }

  lemma ReleaseIdentifierIdempotent(raw: string)
    ensures ReleaseIdentifier(ReleaseIdentifier(raw)) == ReleaseIdentifier(raw)
  {
  }

  /** `replace(/^(?:p)+/, "")`: every leading repeat of `p` goes. */
  function StripLeading(raw: string, p: string): (r: string)
    requires p != []
    ensures !StartsWith(r, p)
    decreases |raw|
  {
    if StartsWith(raw, p) then StripLeading(raw[|p|..], p) else raw
  }

  /** What is left is what follows the stripped repeats: a suffix of the input. */
  lemma {:induction false} StripLeadingIsSuffix(raw: string, p: string)
    requires p != []
    ensures var r := StripLeading(raw, p); |r| <= |raw| && r == raw[|raw| - |r|..]
    decreases |raw|
  {
    if StartsWith(raw, p) {
      var rest := raw[|p|..];
      StripLeadingIsSuffix(rest, p);
      var r := StripLeading(rest, p);
      assert rest[|rest| - |r|..] == raw[|raw| - |r|..];
    }
  }

  /** Create: leading repeats of the prefix are stripped and exactly one is put back. */
  function CreateIdentifier(raw: string): (r: string)
    ensures StartsWith(r, Prefix) && !StartsWith(r[|Prefix|..], Prefix)
  {
    assert (Prefix + StripLeading(raw, Prefix))[|Prefix|..] == StripLeading(raw, Prefix);
    Prefix + StripLeading(raw, Prefix)
  }

  lemma StripLeadingOfPrefixed(x: string, p: string)
    requires p != []
    ensures StripLeading(p + x, p) == StripLeading(x, p)
  {
    var s := p + x;
    assert s[..|p|] == p;
    assert s[|p|..] == x;
  }

  /** `n` copies of `s`. */
  function Repeat(s: string, n: nat): string
  {
    if n == 0 then "" else s + Repeat(s, n - 1)
  }

  lemma {:induction false} StripLeadingRepeats(raw: string, p: string, n: nat)
    requires p != []
    ensures StripLeading(Repeat(p, n) + raw, p) == StripLeading(raw, p)
  {
    if n > 0 {
      var rest := Repeat(p, n - 1) + raw;
      AppendAssoc(p, Repeat(p, n - 1), raw);
      StripLeadingOfPrefixed(rest, p);
      StripLeadingRepeats(raw, p, n - 1);
    } else {
      assert Repeat(p, n) + raw == raw;
    }
  }

  /** Any number of typed prefixes gives the same identifier. */
  lemma CreateIdentifierRepeats(raw: string, n: nat)
    ensures CreateIdentifier(Repeat(Prefix, n) + raw) == CreateIdentifier(raw)
  {
    StripLeadingRepeats(raw, Prefix, n);
  }

  /** Create normalisation is idempotent. */
  lemma CreateIdentifierIdempotent(raw: string)
    ensures CreateIdentifier(CreateIdentifier(raw)) == CreateIdentifier(raw)
  {
    var stripped := StripLeading(raw, Prefix);
    StripLeadingOfPrefixed(stripped, Prefix);
    assert StripLeading(stripped, Prefix) == stripped;
  }

  // ---------------------------------------------------------------- schema and display name

  /** `getExtensionSchemaName`: every "-" becomes "_", and nothing else changes. */
  function SchemaName(identifier: string): (r: string)
    ensures |r| == |identifier| && '-' !in r
    ensures forall i :: 0 <= i < |r| ==> r[i] == (if identifier[i] == '-' then '_' else identifier[i])
  {
    if identifier == [] then []
    else [if identifier[0] == '-' then '_' else identifier[0]] + SchemaName(identifier[1..])
  }

  /** `s.replace(pattern, by)` with a string pattern: only the first occurrence is replaced. */
  function ReplaceFirst(s: string, pattern: string, rep: string): (r: string)
    ensures IndexOf(s, pattern).None? ==> r == s
  {
    match IndexOf(s, pattern)
    case None => s
    case Some(i) => s[..i] + rep + s[i + |pattern|..]
  }

  /** `word.charAt(0).toUpperCase() + word.slice(1)`. */
  function Capitalize(word: string): (r: string)
    ensures |r| == |word|
  {
    if word == [] then [] else [UpperChar(word[0])] + word[1..]
  }

  function CapitalizeAll(words: seq<string>): (r: seq<string>)
    ensures |r| == |words|
    ensures forall i :: 0 <= i < |r| ==> r[i] == Capitalize(words[i])
  {
    if words == [] then [] else [Capitalize(words[0])] + CapitalizeAll(words[1..])
  }

  /** The name offered for a new extension: the prefix dropped, words split on "-", capitalised and joined with spaces. */
  function DefaultName(identifier: string): string
  {
    Join(CapitalizeAll(Split(ReplaceFirst(identifier, Prefix, ""), '-')), ' ')
  }

  lemma PrefixFirst(rest: string)
    ensures IndexOf(Prefix + rest, Prefix) == Some(0)
    ensures ReplaceFirst(Prefix + rest, Prefix, "") == rest
  {
    assert OccursAt(Prefix + rest, Prefix, 0);
  }

  /**
   * The default name undoes to the identifier: for an identifier made of
   * lower-case letters, digits and hyphens, turning the spaces back into "-"
   * and lower-casing gives the part after the prefix.
   */
  lemma DefaultNameRoundTrip(rest: string)
    requires forall i :: 0 <= i < |rest| ==> IsIdentifierChar(rest[i])
    ensures ToLower(ReplaceChar(DefaultName(Prefix + rest), ' ', "-")) == rest
  {
    PrefixFirst(rest);
    var words := Split(rest, '-');
    forall w | w in words ensures forall i :: 0 <= i < |w| ==> IsIdentifierChar(w[i]) && w[i] != '-' {
      WordOfSplit(rest, words, w);
    }
    UndoWords(words);
  }

  lemma WordOfSplit(rest: string, words: seq<string>, w: string)
    requires words == Split(rest, '-') && w in words
    requires forall i :: 0 <= i < |rest| ==> IsIdentifierChar(rest[i])
    ensures forall i :: 0 <= i < |w| ==> IsIdentifierChar(w[i]) && w[i] != '-'
  {
    forall i | 0 <= i < |w| ensures IsIdentifierChar(w[i]) && w[i] != '-' {
      assert w[i] in w;
      JoinHasPieceChars(words, '-', w, i);
    }
  }

  lemma {:induction false} JoinHasPieceChars(parts: seq<string>, sep: char, w: string, i: nat)
    requires w in parts && i < |w|
    ensures w[i] in Join(parts, sep)
  {
    if |parts| > 1 && parts[0] != w {
      assert w in parts[1..];
      JoinHasPieceChars(parts[1..], sep, w, i);
    }
  }

  lemma ToLowerConcat(a: string, b: string)
    ensures ToLower(a + b) == ToLower(a) + ToLower(b)
  {
    var l := ToLower(a + b);
    var x := ToLower(a) + ToLower(b);
    forall i | 0 <= i < |l|
      ensures l[i] == x[i]
    {
      if i < |a| {
        assert (a + b)[i] == a[i];
      } else {
        assert (a + b)[i] == b[i - |a|];
      }
    }
  }

  lemma UndoWord(w: string)
    requires forall i :: 0 <= i < |w| ==> IsIdentifierChar(w[i]) && w[i] != '-'
    ensures ' ' !in Capitalize(w)
    ensures ToLower(ReplaceChar(Capitalize(w), ' ', "-")) == w
  {
    var c := Capitalize(w);
    forall i | 0 <= i < |c| ensures c[i] != ' ' && LowerChar(c[i]) == w[i] {
      if i == 0 {
        assert c[0] == UpperChar(w[0]);
      } else {
        assert c[i] == w[i];
      }
    }
    ReplaceCharMeaning(c, ' ', "-");
  }

  lemma {:induction false} UndoWords(words: seq<string>)
    requires |words| >= 1
    requires forall w | w in words :: forall i :: 0 <= i < |w| ==> IsIdentifierChar(w[i]) && w[i] != '-'
    ensures ToLower(ReplaceChar(Join(CapitalizeAll(words), ' '), ' ', "-")) == Join(words, '-')
  {
    var caps := CapitalizeAll(words);
    UndoWord(words[0]);
    if |words| > 1 {
      UndoWords(words[1..]);
      assert CapitalizeAll(words[1..]) == caps[1..];
      var tail := Join(caps[1..], ' ');
      assert Join(caps, ' ') == caps[0] + [' '] + tail;
      UndoSpace(caps[0], tail);
      assert Join(words, '-') == words[0] + ['-'] + Join(words[1..], '-');
    }
  }

  /** Undoing a space between two pieces: each piece is undone on its own, with a hyphen between. */
  lemma UndoSpace(a: string, b: string)
    ensures ToLower(ReplaceChar(a + [' '] + b, ' ', "-")) ==
      ToLower(ReplaceChar(a, ' ', "-")) + "-" + ToLower(ReplaceChar(b, ' ', "-"))
  {
    var head := ReplaceChar(a, ' ', "-");
    var rest := ReplaceChar(b, ' ', "-");
    ReplaceCharConcat(a + [' '], b, ' ', "-");
    ReplaceCharConcat(a, [' '], ' ', "-");
    assert ReplaceChar([' '], ' ', "-") == "-";
    ToLowerConcat(head + "-", rest);
    ToLowerConcat(head, "-");
    assert ToLower("-") == "-";
  }

  // ---------------------------------------------------------------- release version

  /** The version `release` offers: package.json's, else the manifest's, else "0.0.1"; `None` stands for a missing or non-string value. */
  function CurrentVersion(packageVersion: Option<string>, manifestVersion: Option<string>): (r: string)
    ensures packageVersion.Some? && packageVersion.value != "" ==> r == packageVersion.value
    ensures (packageVersion.None? || packageVersion.value == "") && manifestVersion.Some? && manifestVersion.value != "" ==> r == manifestVersion.value
    ensures (packageVersion.None? || packageVersion.value == "") && (manifestVersion.None? || manifestVersion.value == "") ==> r == "0.0.1"
    ensures r != ""
  {
    if packageVersion.Some? && packageVersion.value != "" then packageVersion.value
    else if manifestVersion.Some? && manifestVersion.value != "" then manifestVersion.value
    else "0.0.1"
  }

  // ---------------------------------------------------------------- prompt loops

  /** What the rebuild question makes of a normalised answer; `None` means "ask again". */
  function Decide(normalized: string): (r: Option<bool>)
    ensures r == Some(true) <==> normalized == "y" || normalized == "yes"
    ensures r == Some(false) <==> normalized == "n" || normalized == "no"
  {
    if normalized == "y" || normalized == "yes" then Some(true)
    else if normalized == "n" || normalized == "no" then Some(false)
    else None
  }

  /**
   * What the rebuild question makes of one typed answer: an empty answer
   * takes the default "y", anything else is trimmed and lower-cased.
   */
  function RebuildAnswer(answer: string): Option<bool>
  {
    if Trim(answer) == "" then Some(true) else Decide(ToLower(Trim(answer)))
  }

  lemma EmptyRebuildAnswer(answer: string)
    requires Trim(answer) == ""
    ensures ToLower(Trim(Prompt(answer, "y"))) == "y"
  {
    assert Prompt(answer, "y") == "y";
    TrimNoSpaceEnds("y");
  }

  lemma TypedRebuildAnswer(answer: string)
    requires Trim(answer) != ""
    ensures Trim(Prompt(answer, "y")) == Trim(answer)
  {
    assert Prompt(answer, "y") == Trim(answer);
    TrimIdempotent(answer);
  }

  /** The rebuild answer as the source normalises it: the prompt's result (default "y"), trimmed and lower-cased. */
  lemma NormalizedRebuildAnswer(answer: string)
    ensures ToLower(Trim(Prompt(answer, "y"))) == if Trim(answer) == "" then "y" else ToLower(Trim(answer))
  {
    if Trim(answer) == "" {
      EmptyRebuildAnswer(answer);
    } else {
      TypedRebuildAnswer(answer);
    }
  }

  /** The function above is what the source computes: the prompt's result, trimmed, lower-cased and decided. */
  lemma RebuildAnswerOfPrompt(answer: string)
    ensures RebuildAnswer(answer) == Decide(ToLower(Trim(Prompt(answer, "y"))))
  {
    NormalizedRebuildAnswer(answer);
  }

  /**
   * The re-prompting loop the questions share: asks again until `judge`
   * makes something of an answer, and returns that.
   */
  method AskUntil<T>(answers: seq<string>, judge: string -> Option<T>) returns (r: Option<T>)
    ensures r.None? ==> forall k :: 0 <= k < |answers| ==> judge(answers[k]).None?
    ensures r.Some? ==> exists k :: (0 <= k < |answers| && judge(answers[k]) == r &&
      forall j :: 0 <= j < k ==> judge(answers[j]).None?)
  {
    var i := 0;
    while i < |answers|
      invariant 0 <= i <= |answers|
      invariant forall j :: 0 <= j < i ==> judge(answers[j]).None?
    {
      var outcome := judge(answers[i]);
      if outcome.Some? {
        r := outcome;
        assert judge(answers[i]) == r;
        return;
      }
      i := i + 1;
    }
    return None;
  }

  /** The rebuild loop: asks until an answer decides, and returns the decision. */
  method AskRebuild(answers: seq<string>) returns (r: Option<bool>)
    ensures r.None? ==> forall k :: 0 <= k < |answers| ==> RebuildAnswer(answers[k]).None?
    ensures r.Some? ==> exists k :: (0 <= k < |answers| && RebuildAnswer(answers[k]) == r &&
      forall j :: 0 <= j < k ==> RebuildAnswer(answers[j]).None?)
  {
    r := AskUntil(answers, RebuildAnswer);
  }

  /**
   * What the release question makes of one typed answer: the identifier
   * (the prefix added when missing) when it is valid and the extension
   * directory exists, else `None`, which asks again.
   */
  function ReleaseOutcome(answer: string, extensionExists: string -> bool): (r: Option<string>)
    ensures r.Some? <==> ValidateIdentifier(ReleaseIdentifier(Prompt(answer, ""))) == Valid &&
                         extensionExists(ReleaseIdentifier(Prompt(answer, "")))
    ensures r.Some? ==> r.value == ReleaseIdentifier(Prompt(answer, "")) && StartsWith(r.value, Prefix) && |r.value| >= 12
  {
    var raw := Prompt(answer, "");
    var identifier := if StartsWith(raw, Prefix) then raw else Prefix + raw;
    ValidateIdentifierMeaning(identifier);
    if ValidateIdentifier(identifier) == Valid && extensionExists(identifier) then Some(identifier) else None
  }

  /** The release loop: the identifier of the first accepted answer. */
  method AskReleaseIdentifier(answers: seq<string>, extensionExists: string -> bool) returns (r: Option<string>)
    ensures r.None? ==> forall k :: 0 <= k < |answers| ==> ReleaseOutcome(answers[k], extensionExists).None?
    ensures r.Some? ==> exists k :: (0 <= k < |answers| && ReleaseOutcome(answers[k], extensionExists) == r &&
      forall j :: 0 <= j < k ==> ReleaseOutcome(answers[j], extensionExists).None?)
  {
    r := AskUntil(answers, answer => ReleaseOutcome(answer, extensionExists));
  }

  /**
   * What the create question makes of one typed answer: the identifier
   * (leading prefixes stripped, one put back) when it is valid and neither
   * a directory nor in the config yet, else `None`, which asks again.
   */
  function CreateOutcome(answer: string, directoryExists: string -> bool, inConfig: string -> bool): (r: Option<string>)
    ensures r.Some? <==> var identifier := CreateIdentifier(Prompt(answer, ""));
      ValidateIdentifier(identifier) == Valid && !directoryExists(identifier) && !inConfig(identifier)
    ensures r.Some? ==> r.value == CreateIdentifier(Prompt(answer, "")) && StartsWith(r.value, Prefix) && |r.value| >= 12
  {
    var raw := Prompt(answer, "");
    var identifier := Prefix + StripLeading(raw, Prefix);
    ValidateIdentifierMeaning(identifier);
    if ValidateIdentifier(identifier) == Valid && !directoryExists(identifier) && !inConfig(identifier) then Some(identifier) else None
  }

  /** The create loop: the identifier of the first accepted answer. */
  method AskCreateIdentifier(answers: seq<string>, directoryExists: string -> bool, inConfig: string -> bool)
    returns (r: Option<string>)
    ensures r.None? ==> forall k :: 0 <= k < |answers| ==> CreateOutcome(answers[k], directoryExists, inConfig).None?
    ensures r.Some? ==> exists k :: (0 <= k < |answers| && CreateOutcome(answers[k], directoryExists, inConfig) == r &&
      forall j :: 0 <= j < k ==> CreateOutcome(answers[j], directoryExists, inConfig).None?)
  {
    r := AskUntil(answers, answer => CreateOutcome(answer, directoryExists, inConfig));
  }
}
