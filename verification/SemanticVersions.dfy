/** `rules-javascript/src/semver.ts` and the second recogniser of the same grammar in
    `data-sources/src/npm-package.ts`: parsing, precedence as section 11 of Semantic Versioning 2.0.0
    defines it, and what "newer" means. */
module SemanticVersions {
  import opened Text
  import opened RepositoryPaths
  import ShellWords

  predicate IsSpace(c: char) {
    ShellWords.IsSpace(c)
  }

  datatype Identifier = Numeric(n: nat) | Alpha(s: string)
  datatype Version = Version(raw: string, major: nat, minor: nat, patch: nat, prerelease: seq<Identifier>)

  // ----- the grammar -----

  const MAX_SAFE_INTEGER: nat := 9007199254740991

  predicate IsDigit(c: char) {
    '0' <= c <= '9'
  }

  predicate IsWordChar(c: char) {
    IsDigit(c) || 'A' <= c <= 'Z' || 'a' <= c <= 'z' || c == '-'
  }

  predicate AllDigits(s: string) {
    s != "" && forall i :: 0 <= i < |s| ==> IsDigit(s[i])
  }

  /** `0|[1-9]\d*` */
  predicate IsNumeric(s: string) {
    AllDigits(s) && (|s| > 1 ==> s[0] != '0')
  }

  /** `[0-9A-Za-z-]+` */
  predicate IsWord(s: string) {
    s != "" && forall i :: 0 <= i < |s| ==> IsWordChar(s[i])
  }

  /** `\d*[A-Za-z-][0-9A-Za-z-]*` */
  predicate IsNonNumeric(s: string) {
    IsWord(s) && exists i :: 0 <= i < |s| && !IsDigit(s[i])
  }

  /** The text up to the first `c`, and what follows it. */
  function Cut(s: string, c: char): (r: (string, Option<string>))
    ensures c !in r.0
    ensures s == if r.1 == None then r.0 else r.0 + [c] + r.1.value
  {
    if s == "" then ("", None)
    else if s[0] == c then ("", Some(s[1..]))
    else
      var (before, after) := Cut(s[1..], c);
      ([s[0]] + before, after)
  }

  datatype Shape = Shape(core: seq<string>, prerelease: Option<seq<string>>, build: Option<seq<string>>)

  /** A `+` can only start the build part, and the first `-` before it the prerelease. */
  function ShapeOf(s: string): Shape {
    var (front, build) := Cut(s, '+');
    var (core, prerelease) := Cut(front, '-');
    Shape(Split(core, '.'),
      if prerelease == None then None else Some(Split(prerelease.value, '.')),
      if build == None then None else Some(Split(build.value, '.')))
  }

  predicate AllWords(parts: Option<seq<string>>) {
    parts.Some? ==> forall p :: p in parts.value ==> IsWord(p)
  }

  predicate CoreOk(core: seq<string>) {
    |core| == 3 && forall p :: p in core ==> IsNumeric(p)
  }

  /** `SEMVER_PATTERN` */
  predicate MatchesSemver(s: string) {
    var x := ShapeOf(s);
    CoreOk(x.core) && AllWords(x.prerelease) && AllWords(x.build)
  }

  /** `EXACT_NPM_VERSION_PATTERN` */
  predicate MatchesExact(s: string) {
    var x := ShapeOf(s);
    && CoreOk(x.core) && AllWords(x.build)
    && (x.prerelease.Some? ==> forall p :: p in x.prerelease.value ==> IsNumeric(p) || IsNonNumeric(p))
  }

  function ToNat(digits: string): nat
    requires forall i :: 0 <= i < |digits| ==> IsDigit(digits[i])
  {
    if digits == "" then 0
    else
      assert IsDigit(digits[|digits| - 1]);
      ToNat(digits[..|digits| - 1]) * 10 + (digits[|digits| - 1] as int - '0' as int)
  }

  /** `Number.isSafeInteger(Number(digits))` */
  predicate IsSafe(digits: string) {
    AllDigits(digits) && ToNat(digits) <= MAX_SAFE_INTEGER
  }

  /** One prerelease identifier; digits must be a safe number without a leading zero. */
  function ParseIdentifier(s: string): Option<Identifier> {
    if !AllDigits(s) then Some(Alpha(s))
    else if !IsNumeric(s) || !IsSafe(s) then None
    else Some(Numeric(ToNat(s)))
  }

  function ParseIdentifiers(parts: seq<string>): (r: Option<seq<Identifier>>)
    ensures r.Some? <==> forall p :: p in parts ==> ParseIdentifier(p).Some?
    ensures r.Some? ==> |r.value| == |parts| && forall i :: 0 <= i < |parts| ==> Some(r.value[i]) == ParseIdentifier(parts[i])
  {
    if parts == [] then Some([])
    else
      assert parts == parts[..|parts| - 1] + [parts[|parts| - 1]];
      var before, last := ParseIdentifiers(parts[..|parts| - 1]), ParseIdentifier(parts[|parts| - 1]);
      if before == None || last == None then None else Some(before.value + [last.value])
  }

  function Parse(s: string): Option<Version> {
    if !MatchesSemver(s) then None
    else
      var x := ShapeOf(s);
      if !(forall p :: p in x.core ==> IsSafe(p)) then None
      else
        var ids := ParseIdentifiers(if x.prerelease == None then [] else x.prerelease.value);
        if ids == None then None
        else
          assert x.core[0] in x.core && x.core[1] in x.core && x.core[2] in x.core;
          Some(Version(s, ToNat(x.core[0]), ToNat(x.core[1]), ToNat(x.core[2]), ids.value))
  }

  /** `parseExactSemanticVersion`, with the loop over prerelease identifiers. */
  method ParseExactSemanticVersion(value: string) returns (version: Option<Version>)
    ensures version == Parse(value)
  {
    hide ParseIdentifier, IsNumeric, IsWord, ToNat, ShapeOf, AllWords;
    if !MatchesSemver(value) { return None; }
    var x := ShapeOf(value);
    if !(forall p :: p in x.core ==> IsSafe(p)) { return None; }
    var parts := if x.prerelease == None then [] else x.prerelease.value;
    var prerelease: seq<Identifier> := [];
    for i := 0 to |parts|
      invariant ParseIdentifiers(parts[..i]) == Some(prerelease)
    {
      assert parts[..i + 1][..i] == parts[..i] && parts[..i + 1][i] == parts[i];
      var identifier := ParseIdentifier(parts[i]);
      if identifier == None {
        assert parts[i] in parts;
        return None;
      }
      prerelease := prerelease + [identifier.value];
    }
    assert parts[..|parts|] == parts;
    assert x.core[0] in x.core && x.core[1] in x.core && x.core[2] in x.core;
    assert forall p :: p in x.core ==> AllDigits(p) by { CoreDigits(x.core); }
    version := Some(Version(value, ToNat(x.core[0]), ToNat(x.core[1]), ToNat(x.core[2]), prerelease));
  }

  lemma CoreDigits(core: seq<string>)
    requires CoreOk(core)
    ensures forall p :: p in core ==> AllDigits(p)
  {
  }

  // ----- `isExactNpmVersion` accepts the same strings -----

  const MAX_VERSION_LENGTH: nat := 256

  predicate IsControl(c: char) {
    c <= '\U{1F}' || c == '\U{7F}'
  }

  /** `value.trim() === value` */
  predicate IsTrimmed(s: string) {
    s != "" ==> !IsSpace(s[0]) && !IsSpace(s[|s| - 1])
  }

  predicate IsExactNpmVersion(s: string) {
    0 < |s| <= MAX_VERSION_LENGTH && IsTrimmed(s) && (forall c :: c in s ==> !IsControl(c)) && MatchesExact(s)
  }

  lemma {:induction false} SplitJoins(s: string, c: char)
    ensures forall x :: x in s ==> x == c || exists p :: p in Split(s, c) && x in p
    ensures s != "" && (forall p :: p in Split(s, c) ==> p != "") ==> s[0] != c && s[|s| - 1] != c
    ensures s == "" ==> "" in Split(s, c)
    decreases |s|
  {
    if s != "" {
      SplitJoins(s[1..], c);
      var rest := Split(s[1..], c);
      var parts := Split(s, c);
      assert s == [s[0]] + s[1..];
      assert forall x :: x in s <==> x == s[0] || x in s[1..];
      if s[0] == c {
        assert parts == [""] + rest && parts[0] == "";
        assert "" in parts;
        forall x | x in s && x != c ensures exists p :: p in parts && x in p {
          var p :| p in rest && x in p;
          assert p in parts;
        }
      } else {
        assert parts == [[s[0]] + rest[0]] + rest[1..];
        assert parts[0] == [s[0]] + rest[0];
        forall x | x in s && x != c ensures exists p :: p in parts && x in p {
          if x == s[0] { assert x in parts[0]; }
          else {
            var p :| p in rest && x in p;
            var k :| 0 <= k < |rest| && rest[k] == p;
            assert parts[k] == if k == 0 then [s[0]] + rest[0] else rest[k];
            assert x in parts[k];
          }
        }
        if (forall p :: p in parts ==> p != "") && |s| > 1 { LastIsNotSeparator(s, c, rest); }
      }
    }
  }

  lemma LastIsNotSeparator(s: string, c: char, rest: seq<string>)
    requires |s| > 1 && rest == Split(s[1..], c) && s[0] != c
    requires forall p :: p in [[s[0]] + rest[0]] + rest[1..] ==> p != ""
    ensures s[|s| - 1] != c
  {
    LastPart(s[1..], c);
    var parts := [[s[0]] + rest[0]] + rest[1..];
    assert |rest| > 1 ==> parts[|rest| - 1] == rest[|rest| - 1] && parts[|rest| - 1] in parts;
    assert s[1..][|s[1..]| - 1] == s[|s| - 1];
  }

  /** A string that ends with the separator has an empty last part, after a first one. */
  lemma {:induction false} LastPart(s: string, c: char)
    ensures s != "" && s[|s| - 1] == c ==> |Split(s, c)| > 1 && Split(s, c)[|Split(s, c)| - 1] == ""
    decreases |s|
  {
    if |s| > 1 { LastPart(s[1..], c); }
  }

  predicate AllWordsOrDots(s: string) {
    s != "" && (forall x :: x in s ==> x == '.' || IsWordChar(x)) && IsWordChar(s[0]) && IsWordChar(s[|s| - 1])
  }

  lemma {:induction false} DottedWords(s: string)
    requires forall p :: p in Split(s, '.') ==> IsWord(p)
    ensures AllWordsOrDots(s)
  {
    SplitJoins(s, '.');
    forall x | x in s && x != '.' ensures IsWordChar(x) {
      var p :| p in Split(s, '.') && x in p;
      var i :| 0 <= i < |p| && p[i] == x;
    }
    assert s != "";
    assert s[0] in s && s[|s| - 1] in s;
  }

  /** Matching strings consist of word characters, dots and one plus, and end in word characters. */
  lemma {:induction false} MatchingStringsAreClean(s: string)
    requires MatchesSemver(s)
    ensures Clean(s)
  {
    hide IsNumeric, IsWord, Split, Cut, IsWordChar;
    var (front, build) := Cut(s, '+');
    var (core, prerelease) := Cut(front, '-');
    NumericIsWord(ShapeOf(s).core);
    DottedWords(core);
    if prerelease.Some? { DottedWords(prerelease.value); }
    if build.Some? { DottedWords(build.value); }
    CleanJoin(core, '-', prerelease, front);
    CleanJoin(front, '+', build, s);
  }

  predicate Clean(s: string) {
    s != "" && IsWordChar(s[0]) && IsWordChar(s[|s| - 1]) && forall x :: x in s ==> x == '.' || x == '+' || IsWordChar(x)
  }

  lemma {:induction false} CleanJoin(before: string, c: char, after: Option<string>, all: string)
    requires all == if after == None then before else before + [c] + after.value
    requires Clean(before) && (after.Some? ==> Clean(after.value)) && (c == '-' || c == '+')
    ensures Clean(all)
  {
    hide IsWordChar;
    assert IsWordChar('-') by { DashIsWordChar(); }
  }

  lemma DashIsWordChar()
    ensures IsWordChar('-')
  {
  }

  lemma NumericIsWord(parts: seq<string>)
    requires forall p :: p in parts ==> IsNumeric(p)
    ensures forall p :: p in parts ==> IsWord(p)
  {
  }

  lemma CleanIsTrimmed(s: string)
    requires Clean(s)
    ensures s != "" && IsTrimmed(s) && forall c :: c in s ==> !IsControl(c)
  {
  }

  /** All numbers of the version are safe integers. */
  predicate NumbersAreSafe(s: string) {
    var x := ShapeOf(s);
    && (forall p :: p in x.core && AllDigits(p) ==> IsSafe(p))
    && (x.prerelease.Some? ==> forall p :: p in x.prerelease.value && AllDigits(p) ==> IsSafe(p))
  }

  lemma {:induction false} IdentifierForms(p: string)
    requires IsWord(p)
    ensures (IsNumeric(p) || IsNonNumeric(p)) && (AllDigits(p) ==> IsSafe(p)) <==> ParseIdentifier(p).Some?
    ensures IsNonNumeric(p) <==> !AllDigits(p)
  {
  }

  /** The two recognisers agree: a string of at most 256 characters parses exactly when it is an exact
      npm version all of whose numbers are safe integers. */
  lemma {:induction false} RecognisersAgree(s: string)
    ensures Parse(s).Some? && |s| <= MAX_VERSION_LENGTH <==> IsExactNpmVersion(s) && NumbersAreSafe(s)
  {
    hide IsNumeric, IsSafe, Split, Cut, IsTrimmed, ToNat, ParseIdentifier, ShapeOf;
    var x := ShapeOf(s);
    if MatchesSemver(s) {
      MatchingStringsAreClean(s);
      CleanIsTrimmed(s);
    }
    assert CoreOk(x.core) ==> forall p :: p in x.core ==> AllDigits(p) by { if CoreOk(x.core) { CoreDigits(x.core); } }
    if x.prerelease.Some? {
      forall p | p in x.prerelease.value && IsWord(p)
        ensures (IsNumeric(p) || IsNonNumeric(p)) && (AllDigits(p) ==> IsSafe(p)) <==> ParseIdentifier(p).Some?
      {
        IdentifierForms(p);
      }
      forall p | p in x.prerelease.value && (IsNumeric(p) || IsNonNumeric(p)) ensures IsWord(p) { NumericIsWord(if IsNumeric(p) then [p] else []); assert IsNumeric(p) ==> p in [p]; }
    }
  }
}
