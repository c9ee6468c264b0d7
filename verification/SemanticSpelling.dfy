/** How a version is written: which of its numbers stands where, what its prerelease identifiers look
    like, and that parsing is exactly the inverse of writing. */
module SemanticSpelling {
  import opened Text
  import opened RepositoryPaths
  import opened SemanticVersions

  // ----- writing -----

  function Digits(n: nat): (s: string)
    ensures s != "" && forall i :: 0 <= i < |s| ==> IsDigit(s[i])
    ensures |s| > 1 ==> s[0] != '0'
    ensures n > 0 ==> s[0] != '0'
  {
    if n < 10 then [('0' as int + n) as char] else Digits(n / 10) + [('0' as int + n % 10) as char]
  }

  function Joined(parts: seq<string>, c: char): string
    requires parts != []
  {
    if |parts| == 1 then parts[0] else parts[0] + ([c] + Joined(parts[1..], c))
  }

  function Shown(id: Identifier): string {
    match id
    case Numeric(n) => Digits(n)
    case Alpha(s) => s
  }

  function ShownAll(ids: seq<Identifier>): (r: seq<string>)
    ensures |r| == |ids| && forall i :: 0 <= i < |ids| ==> r[i] == Shown(ids[i])
  {
    Mapped(ids, Shown)
  }

  function Core(v: Version): seq<string> {
    [Digits(v.major), Digits(v.minor), Digits(v.patch)]
  }

  /** `major.minor.patch-prerelease+build`. */
  function Written(v: Version, build: Option<seq<string>>): string
    requires build.Some? ==> build.value != []
  {
    Joined(Core(v), '.')
      + (if v.prerelease == [] then "" else ['-'] + Joined(ShownAll(v.prerelease), '.'))
      + (if build == None then "" else ['+'] + Joined(build.value, '.'))
  }

  predicate Legal(v: Version, build: Option<seq<string>>) {
    && v.major <= MAX_SAFE_INTEGER && v.minor <= MAX_SAFE_INTEGER && v.patch <= MAX_SAFE_INTEGER
    && (forall id :: id in v.prerelease ==>
          match id
          case Numeric(n) => n <= MAX_SAFE_INTEGER
          case Alpha(s) => IsWord(s) && !AllDigits(s))
    && (build.Some? ==> build.value != [] && forall p :: p in build.value ==> IsWord(p))
  }

  // ----- numbers -----

  lemma {:induction false} DigitsRead(n: nat)
    ensures ToNat(Digits(n)) == n && IsNumeric(Digits(n))
  {
    if n >= 10 {
      DigitsRead(n / 10);
      var s := Digits(n);
      assert s[..|s| - 1] == Digits(n / 10);
    } else { assert Digits(n)[..0] == ""; }
  }

  lemma {:induction false} NumeralsArePositive(s: string)
    requires IsNumeric(s) && s[0] != '0'
    ensures ToNat(s) > 0
    decreases |s|
  {
    if |s| == 1 { assert s[..0] == "" && IsDigit(s[0]); }
    else {
      assert IsDigit(s[|s| - 1]);
      NumeralsArePositive(s[..|s| - 1]);
    }
  }

  lemma {:induction false} DigitsWrite(s: string)
    requires IsNumeric(s)
    ensures Digits(ToNat(s)) == s
    decreases |s|
  {
    var last := s[|s| - 1];
    assert IsDigit(last);
    if |s| == 1 { assert s[..0] == "" && s == [last]; }
    else {
      var rest := s[..|s| - 1];
      DigitsWrite(rest);
      NumeralsArePositive(rest);
      var n := ToNat(rest) * 10 + (last as int - '0' as int);
      assert n / 10 == ToNat(rest) && n % 10 == last as int - '0' as int;
      assert s == rest + [last];
    }
  }

  // ----- cutting and joining -----

  lemma {:induction false} CutAt(a: string, c: char, b: string)
    requires c !in a
    ensures Cut(a + ([c] + b), c) == (a, Some(b))
    decreases |a|
  {
    var s := a + ([c] + b);
    if a == "" { assert s[0] == c && s[1..] == b; }
    else {
      assert s[0] == a[0] && s[1..] == a[1..] + ([c] + b);
      CutAt(a[1..], c, b);
      assert [a[0]] + a[1..] == a;
    }
  }

  lemma {:induction false} CutNowhere(a: string, c: char)
    requires c !in a
    ensures Cut(a, c) == (a, None)
    decreases |a|
  {
    if a != "" {
      CutNowhere(a[1..], c);
      assert [a[0]] + a[1..] == a;
    }
  }

  lemma {:induction false} SplitPrefix(a: string, c: char, b: string)
    requires c !in a
    ensures Split(a + ([c] + b), c) == [a] + Split(b, c)
    decreases |a|
  {
    var s := a + ([c] + b);
    if a == "" { assert s[0] == c && s[1..] == b; }
    else {
      assert s[0] == a[0] && s[1..] == a[1..] + ([c] + b);
      SplitPrefix(a[1..], c, b);
      var rest := [a[1..]] + Split(b, c);
      assert rest[0] == a[1..] && rest[1..] == Split(b, c) && [a[0]] + a[1..] == a;
    }
  }

  lemma {:induction false} SplitOne(a: string, c: char)
    requires c !in a
    ensures Split(a, c) == [a]
    decreases |a|
  {
    if a != "" {
      SplitOne(a[1..], c);
      assert [a[1..]][1..] == [] && [a[0]] + a[1..] == a;
    }
  }

  lemma {:induction false} SplitJoined(parts: seq<string>, c: char)
    requires parts != [] && forall p :: p in parts ==> c !in p
    ensures Split(Joined(parts, c), c) == parts
    decreases |parts|
  {
    if |parts| == 1 { SplitOne(parts[0], c); }
    else {
      SplitPrefix(parts[0], c, Joined(parts[1..], c));
      SplitJoined(parts[1..], c);
      assert parts == [parts[0]] + parts[1..];
    }
  }

  lemma {:induction false} JoinedSplit(s: string, c: char)
    ensures Joined(Split(s, c), c) == s
    decreases |s|
  {
    if s == "" { return; }
    JoinedSplit(s[1..], c);
    var rest, parts := Split(s[1..], c), Split(s, c);
    assert s == [s[0]] + s[1..];
    if s[0] == c {
      assert parts[0] == "" && parts[1..] == rest;
      assert "" + ([c] + Joined(rest, c)) == s;
    } else {
      assert parts[0] == [s[0]] + rest[0] && parts[1..] == rest[1..];
      if |rest| > 1 {
        assert ([s[0]] + rest[0]) + ([c] + Joined(rest[1..], c)) == [s[0]] + (rest[0] + ([c] + Joined(rest[1..], c)));
      }
    }
  }

  /** A joined list holds no character that its parts and separator do not. */
  lemma {:induction false} JoinedLacks(parts: seq<string>, c: char, x: char)
    requires parts != [] && x != c && forall p :: p in parts ==> x !in p
    ensures x !in Joined(parts, c)
    decreases |parts|
  {
    if |parts| > 1 { JoinedLacks(parts[1..], c, x); }
  }

  lemma WordLacks(p: string)
    requires IsWord(p)
    ensures '.' !in p && '+' !in p
  {
  }

  lemma NumeralLacks(p: string)
    requires IsNumeric(p)
    ensures '.' !in p && '+' !in p && '-' !in p && IsWord(p)
  {
  }

  // ----- writing, then parsing -----

  lemma {:induction false} ShownIsParsed(id: Identifier)
    requires match id case Numeric(n) => n <= MAX_SAFE_INTEGER case Alpha(s) => IsWord(s) && !AllDigits(s)
    ensures ParseIdentifier(Shown(id)) == Some(id) && IsWord(Shown(id))
  {
    hide ToNat;
    if id.Numeric? {
      DigitsRead(id.n);
      NumeralLacks(Digits(id.n));
    }
  }

  lemma {:induction false} WrittenShape(v: Version, build: Option<seq<string>>)
    requires Legal(v, build)
    ensures ShapeOf(Written(v, build)) ==
      Shape(Core(v), if v.prerelease == [] then None else Some(ShownAll(v.prerelease)), build)
    ensures CoreOk(Core(v)) && forall p :: p in ShownAll(v.prerelease) ==> IsWord(p)
  {
    hide Split, Cut, Joined, Digits, ToNat, IsNumeric, IsWord, AllDigits;
    DigitsRead(v.major);
    DigitsRead(v.minor);
    DigitsRead(v.patch);
    forall p | p in Core(v) ensures '.' !in p && '+' !in p && '-' !in p && IsNumeric(p) { NumeralLacks(p); }
    var core := Joined(Core(v), '.');
    JoinedLacks(Core(v), '.', '+');
    JoinedLacks(Core(v), '.', '-');
    SplitJoined(Core(v), '.');
    var shown := ShownAll(v.prerelease);
    forall p | p in shown ensures IsWord(p) && '.' !in p && '+' !in p {
      var i :| 0 <= i < |shown| && shown[i] == p;
      assert v.prerelease[i] in v.prerelease;
      ShownIsParsed(v.prerelease[i]);
      WordLacks(p);
    }
    var front := core + (if v.prerelease == [] then "" else ['-'] + Joined(shown, '.'));
    if v.prerelease == [] {
      assert front == core;
      CutNowhere(core, '-');
    } else {
      JoinedLacks(shown, '.', '+');
      SplitJoined(shown, '.');
      CutAt(core, '-', Joined(shown, '.'));
    }
    if build == None {
      assert Written(v, build) == front;
      CutNowhere(front, '+');
    } else {
      forall p | p in build.value ensures '.' !in p { WordLacks(p); }
      SplitJoined(build.value, '.');
      CutAt(front, '+', Joined(build.value, '.'));
    }
  }

  lemma {:induction false} WrittenIsParsed(v: Version, build: Option<seq<string>>)
    requires Legal(v, build)
    ensures Parse(Written(v, build)) == Some(v.(raw := Written(v, build)))
  {
    hide ShapeOf, Written, Digits, ToNat, IsNumeric, IsWord, ParseIdentifier, AllDigits;
    WrittenShape(v, build);
    DigitsRead(v.major);
    DigitsRead(v.minor);
    DigitsRead(v.patch);
    var shown := ShownAll(v.prerelease);
    forall i | 0 <= i < |shown| ensures ParseIdentifier(shown[i]) == Some(v.prerelease[i]) {
      assert v.prerelease[i] in v.prerelease;
      ShownIsParsed(v.prerelease[i]);
    }
    forall p | p in shown ensures ParseIdentifier(p).Some? {
      var i :| 0 <= i < |shown| && shown[i] == p;
    }
    assert ParseIdentifiers(shown).value == v.prerelease;
    CoreDigits(Core(v));
    NoIdentifiers();
  }

  lemma NoIdentifiers()
    ensures ParseIdentifiers([]) == Some([])
  {
  }

  // ----- parsing, then writing -----

  lemma {:induction false} ParsedIsShown(p: string)
    requires IsWord(p) && ParseIdentifier(p).Some?
    ensures var id := ParseIdentifier(p).value;
      && Shown(id) == p
      && (match id case Numeric(n) => n <= MAX_SAFE_INTEGER case Alpha(s) => IsWord(s) && !AllDigits(s))
  {
    hide ToNat;
    if AllDigits(p) { DigitsWrite(p); }
  }

  lemma {:induction false} ParsedIsWritten(s: string)
    requires Parse(s).Some?
    ensures Legal(Parse(s).value, ShapeOf(s).build) && s == Written(Parse(s).value, ShapeOf(s).build)
  {
    hide Split, Cut, Joined, Digits, ToNat, IsWord, IsNumeric, ParseIdentifier;
    var v, x := Parse(s).value, ShapeOf(s);
    var (front, build) := Cut(s, '+');
    var (core, prerelease) := Cut(front, '-');
    JoinedSplit(core, '.');
    CoreDigits(x.core);
    assert x.core[0] in x.core && x.core[1] in x.core && x.core[2] in x.core;
    DigitsWrite(x.core[0]);
    DigitsWrite(x.core[1]);
    DigitsWrite(x.core[2]);
    assert Core(v) == x.core;
    if prerelease.Some? {
      var parts := x.prerelease.value;
      JoinedSplit(prerelease.value, '.');
      forall i | 0 <= i < |parts| ensures Shown(v.prerelease[i]) == parts[i] {
        assert parts[i] in parts;
        ParsedIsShown(parts[i]);
      }
      assert ShownAll(v.prerelease) == parts;
      forall id | id in v.prerelease
        ensures match id case Numeric(n) => n <= MAX_SAFE_INTEGER case Alpha(t) => IsWord(t) && !AllDigits(t)
      {
        var i :| 0 <= i < |parts| && v.prerelease[i] == id;
        assert parts[i] in parts;
        ParsedIsShown(parts[i]);
      }
    } else { NoIdentifiers(); }
    if build.Some? { JoinedSplit(build.value, '.'); }
    NumbersFit(x.core);
    WrittenFrom(s, front, core, v, prerelease, build);
  }

  lemma NumbersFit(core: seq<string>)
    requires |core| == 3 && IsSafe(core[0]) && IsSafe(core[1]) && IsSafe(core[2])
    ensures ToNat(core[0]) <= MAX_SAFE_INTEGER && ToNat(core[1]) <= MAX_SAFE_INTEGER
    ensures ToNat(core[2]) <= MAX_SAFE_INTEGER
  {
  }

  lemma WrittenFrom(s: string, front: string, core: string, v: Version, prerelease: Option<string>,
      build: Option<string>)
    requires front == if prerelease == None then core else core + ['-'] + prerelease.value
    requires s == if build == None then front else front + ['+'] + build.value
    requires core == Joined(Core(v), '.')
    requires prerelease == None <==> v.prerelease == []
    requires prerelease.Some? ==> prerelease.value == Joined(ShownAll(v.prerelease), '.')
    requires build.Some? ==> build.value == Joined(Split(build.value, '.'), '.')
    ensures s == Written(v, if build == None then None else Some(Split(build.value, '.')))
  {
    hide Joined, Split, Core;
    assert core + "" == core && front + "" == front;
  }

  // ----- the theorem -----

  ghost predicate Spells(v: Version, s: string) {
    v.raw == s && exists build :: Legal(v, build) && s == Written(v, build)
  }

  /** A string parses as a version exactly when it is how that version is written: the three numbers in
      that order, the prerelease identifiers after `-`, and any build words after `+`. */
  lemma {:induction false} ParseIsTheInverseOfWriting(s: string, v: Version)
    ensures Parse(s) == Some(v) <==> Spells(v, s)
  {
    hide Written, ShapeOf, ParseIdentifiers, ToNat, MatchesSemver;
    if Parse(s) == Some(v) {
      ParsedIsWritten(s);
      assert Legal(v, ShapeOf(s).build) && v.raw == s;
    }
    if Spells(v, s) {
      var build :| Legal(v, build) && s == Written(v, build);
      WrittenIsParsed(v, build);
      assert v.(raw := s) == v;
    }
  }
}
