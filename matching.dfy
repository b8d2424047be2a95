// Name matching: File.match, and the decision in doPackage whether the
// target is a regular expression. The regexp package itself is a parameter:
// whether a pattern compiles, and whether a compiled pattern matches a name.

module Matching {
  import opened Text
  import opened Syntax

  /** The regexp engine as doc.go uses it: regexp.Compile succeeding, and Regexp.MatchString. */
  datatype RegexEngine = RegexEngine(compiles: string -> bool, matches: (string, string) -> bool)

  /** ast.IsExported: the first character is an upper-case letter. */
  predicate IsExported(name: string) {
    |name| > 0 && IsUpper(name[0])
  }

  /** The bytes regexp.QuoteMeta escapes. */
  const SpecialChars: string := "\\.+*?()|[]{}^$"

  /** regexp.QuoteMeta: a backslash before every special character. */
  function QuoteMeta(s: string): (r: string)
    ensures |r| >= |s|
  {
    if s == [] then []
    else (if s[0] in SpecialChars then ['\\', s[0]] else [s[0]]) + QuoteMeta(s[1..])
  }

  predicate HasSpecial(s: string) {
    exists i :: 0 <= i < |s| && s[i] in SpecialChars
  }

  /** QuoteMeta leaves a string alone exactly when it has no special character. */
  lemma {:induction false} QuoteMetaIdentityIff(s: string)
    ensures QuoteMeta(s) == s <==> !HasSpecial(s)
  {
    if s != [] {
      QuoteMetaIdentityIff(s[1..]);
      if s[0] in SpecialChars {
        assert |QuoteMeta(s)| == 2 + |QuoteMeta(s[1..])| > |s|;
      } else {
        assert QuoteMeta(s) == [s[0]] + QuoteMeta(s[1..]);
        assert s == [s[0]] + s[1..];
        if HasSpecial(s) {
          var i :| 0 <= i < |s| && s[i] in SpecialChars;
          assert s[1..][i - 1] in SpecialChars;
        }
        if HasSpecial(s[1..]) {
          var i :| 0 <= i < |s[1..]| && s[1..][i] in SpecialChars;
          assert s[i + 1] in SpecialChars;
        }
      }
    }
  }

  /** Reading a quoted string back: a backslash stands for the character after it. */
  function Unquote(r: string): string
    decreases |r|
  {
    if r == [] then []
    else if r[0] == '\\' && |r| >= 2 then [r[1]] + Unquote(r[2..])
    else [r[0]] + Unquote(r[1..])
  }

  /** QuoteMeta loses nothing: unquoting its result gives the string back. */
  lemma {:induction false} QuoteMetaRoundTrip(s: string)
    ensures Unquote(QuoteMeta(s)) == s
  {
    if s != [] {
      QuoteMetaRoundTrip(s[1..]);
      var q := QuoteMeta(s[1..]);
      if s[0] in SpecialChars {
        var r := ['\\', s[0]] + q;
        assert r[2..] == q;
      } else {
        assert s[0] != '\\';
        var r := [s[0]] + q;
        assert r[1..] == q;
      }
      assert s == [s[0]] + s[1..];
    }
  }

  /** `regexp.QuoteMeta(ident) != ident`: the target is a regular expression. */
  predicate IsRegexp(ident: string) {
    QuoteMeta(ident) != ident
  }

  /** A target is taken as a regular expression exactly when it holds a special character. */
  lemma IsRegexpIff(ident: string)
    ensures IsRegexp(ident) <==> HasSpecial(ident)
  {
    QuoteMetaIdentityIff(ident);
  }

  /** The pattern doPackage compiles: the target anchored at both ends, case folded. */
  function Anchored(ident: string): (p: string)
    ensures HasPrefix(p, "^(?i:")
    ensures |p| == |ident| + 7 && p[5..|p| - 2] == ident && p[|p| - 2..] == ")$"
  {
    "^(?i:" + ident + ")$"
  }

  /** The File's regexp field: set only for a regular-expression target. */
  function Target(ident: string): (r: Option<string>)
    ensures r.Some? <==> HasSpecial(ident)
    ensures r.Some? ==> r.value == Anchored(ident)
  {
    QuoteMetaIdentityIff(ident);
    if IsRegexp(ident) then Some(Anchored(ident)) else None
  }

  /** File.match. */
  function Match(name: string, ident: string, re: Option<string>, engine: RegexEngine): (r: bool)
    ensures !IsExported(name) ==> !r
    ensures re.None? ==> (r <==> IsExported(name) && ToLower(name) == ToLower(ident))
    ensures re.Some? ==> (r <==> IsExported(name) && engine.matches(re.value, name))
  {
    if !IsExported(name) then false
    else if re.None? then ToLower(name) == ToLower(ident)
    else engine.matches(re.value, name)
  }

  /** A literal target finds every exported case variant of itself. */
  lemma LiteralMatchesCaseVariants(name: string, ident: string, engine: RegexEngine)
    requires IsExported(name) && CaseVariants(name, ident)
    ensures Match(name, ident, None, engine)
  {
    CaseVariantsIff(name, ident);
  }

  /** Literal matching does not see the case of the target, nor that of an exported candidate. */
  lemma LiteralMatchIgnoresCase(name: string, name': string, ident: string, ident': string, engine: RegexEngine)
    requires CaseVariants(name, name') && CaseVariants(ident, ident')
    requires IsExported(name) && IsExported(name')
    ensures Match(name, ident, None, engine) == Match(name', ident', None, engine)
  {
    CaseVariantsIff(name, name');
    CaseVariantsIff(ident, ident');
  }

  /** A name beginning with a lower-case letter is never found, even in its own spelling. */
  lemma UnexportedNeverMatches(name: string, re: Option<string>, engine: RegexEngine)
    requires |name| > 0 && 'a' <= name[0] <= 'z'
    ensures !Match(name, name, re, engine)
  {
  }
}
