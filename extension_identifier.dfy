/**
 * The extension identifier rules of the core module: the npm package-name
 * validator applied to identifiers, and the transform that trims an
 * identifier and gives it the "buildingai-" prefix.
 */
module ExtensionIdentifier {
  import opened Text

  /** `[a-z0-9]`. */
  predicate IsAlnum(c: char) { IsLower(c) || IsDigit(c) }

  /** `[a-z0-9._-]`. */
  predicate IsNameChar(c: char) { IsAlnum(c) || c == '.' || c == '_' || c == '-' }

  /** `[a-z0-9]([a-z0-9._-]*[a-z0-9])?`: name characters, starting and ending alphanumeric. */
  predicate IsName(s: string) {
    |s| >= 1 && IsAlnum(s[0]) && IsAlnum(s[|s| - 1]) && forall i :: 0 <= i < |s| ==> IsNameChar(s[i])
  }

  /** `^(@name/)?name$`: an unscoped name, or "@", a scope name, "/" and a name. */
  predicate MatchesPattern(s: string) {
    IsName(s) ||
    (|s| >= 1 && s[0] == '@' &&
     var scope := UpTo(s[1..], '/');
     1 + |scope| < |s| && IsName(scope) && IsName(s[2 + |scope|..]))
  }

  /** `IsValidNpmPackageNameConstraint.validate`, check by check in source order. */
  predicate Validate(identifier: string) {
    if identifier == "" then false
    else if |identifier| > 214 then false
    else if StartsWith(identifier, ".") || StartsWith(identifier, "_") then false
    else if identifier != ToLower(identifier) then false
    else if StartsWith(identifier, "-") || EndsWith(identifier, "-") then false
    else if !MatchesPattern(identifier) then false
    else if identifier != Trim(identifier) then false
    else true
  }

  /** A name on its own already satisfies every earlier guard. */
  lemma NameChars(s: string)
    requires IsName(s)
    ensures forall i :: 0 <= i < |s| ==> !IsUpper(s[i]) && !IsSpace(s[i])
  {
    forall i | 0 <= i < |s| ensures !IsUpper(s[i]) && !IsSpace(s[i]) {
      assert IsNameChar(s[i]);
    }
  }

  lemma PatternChars(s: string)
    requires MatchesPattern(s)
    ensures |s| >= 1 && (IsAlnum(s[0]) || s[0] == '@') && IsAlnum(s[|s| - 1])
    ensures forall i :: 0 <= i < |s| ==> !IsUpper(s[i]) && !IsSpace(s[i])
  {
    if !IsName(s) {
      var scope := UpTo(s[1..], '/');
      var name := s[2 + |scope|..];
      NameChars(scope);
      NameChars(name);
      assert s == "@" + scope + "/" + name by {
        assert s[1..][..|scope|] == scope;
        assert s[1 + |scope|] == s[1..][|scope|] == '/';
      }
      forall i | 0 <= i < |s| ensures !IsUpper(s[i]) && !IsSpace(s[i]) {
        if 1 <= i < 1 + |scope| {
          assert s[i] == scope[i - 1];
        } else if i >= 2 + |scope| {
          assert s[i] == name[i - 2 - |scope|];
        }
      }
      assert s[|s| - 1] == name[|name| - 1];
    } else {
      NameChars(s);
    }
  }

  lemma LowerFixed(s: string)
    requires forall i :: 0 <= i < |s| ==> !IsUpper(s[i])
    ensures ToLower(s) == s
  {
  }

  /**
   * validate accepts exactly the non-empty identifiers of at most 214
   * characters that match the scoped/unscoped pattern; in particular every
   * accepted identifier starts with "@" or an alphanumeric, ends alphanumeric
   * and has no upper-case letter.
   */
  lemma ValidateIsPattern(identifier: string)
    ensures Validate(identifier) <==> 1 <= |identifier| <= 214 && MatchesPattern(identifier)
  {
    if 1 <= |identifier| <= 214 && MatchesPattern(identifier) {
      PatternChars(identifier);
      LowerFixed(identifier);
      TrimNoSpaceEnds(identifier);
    }
  }

  /** The rejections listed first in the validator. */
  lemma ValidateRejects(identifier: string)
    ensures identifier == "" ==> !Validate(identifier)
    ensures |identifier| > 214 ==> !Validate(identifier)
    ensures StartsWith(identifier, ".") || StartsWith(identifier, "_") ==> !Validate(identifier)
    ensures (exists i :: 0 <= i < |identifier| && IsUpper(identifier[i])) ==> !Validate(identifier)
    ensures StartsWith(identifier, "-") || EndsWith(identifier, "-") ==> !Validate(identifier)
  {
    if exists i :: 0 <= i < |identifier| && IsUpper(identifier[i]) {
      var i :| 0 <= i < |identifier| && IsUpper(identifier[i]);
      assert ToLower(identifier)[i] != identifier[i];
    }
  }

  const Prefix: string := "buildingai-"

  /**
   * `NormalizeExtensionIdentifier`: an empty value is returned as it is;
   * otherwise the value is trimmed and, unless "buildingai-" occurs anywhere
   * in it, prefixed with "buildingai-".
   */
  function NormalizeIdentifier(value: string): (r: string)
    ensures value != "" ==> Contains(r, Prefix)
    ensures value != "" && Contains(Trim(value), Prefix) ==> r == Trim(value)
    ensures value != "" && !Contains(Trim(value), Prefix) ==> r == Prefix + Trim(value)
    ensures value == "" ==> r == ""
  {
    if value == "" then value
    else
      var normalized := Trim(value);
      if !Contains(normalized, Prefix) then
        ContainsAt(Prefix + normalized, Prefix, 0);
        Prefix + normalized
      else normalized
  }

  /** A trimmed string behind a piece with no space at either end stays trimmed. */
  lemma TrimmedAfter(p: string, t: string)
    requires |p| >= 1 && !IsSpace(p[0]) && !IsSpace(p[|p| - 1])
    requires t == [] || (!IsSpace(t[0]) && !IsSpace(t[|t| - 1]))
    ensures Trim(p + t) == p + t
  {
    var r := p + t;
    assert r[0] == p[0];
    assert r[|r| - 1] == if t == [] then p[|p| - 1] else t[|t| - 1];
    TrimNoSpaceEnds(r);
  }

  /** Normalising is idempotent. */
  lemma NormalizeIdentifierIdempotent(value: string)
    ensures NormalizeIdentifier(NormalizeIdentifier(value)) == NormalizeIdentifier(value)
  {
    if value != "" {
      var t := Trim(value);
      var r := NormalizeIdentifier(value);
      assert r != "";
      if Contains(t, Prefix) {
        TrimIdempotent(value);
      } else {
        TrimmedAfter(Prefix, t);
        assert Contains(r, Prefix);
      }
    }
  }
}
