/** `compareSemanticVersions` and `newerVersionDifference`: the index loop with early returns, its
    meaning as a function, and section 11 of Semantic Versioning 2.0.0 stated independently. */
module SemanticPrecedence {
  import opened Text
  import opened SemanticVersions

  function CompareIdentifiers(left: Identifier, right: Identifier): int {
    match left
    case Numeric(a) =>
      (match right
       case Numeric(b) => if a == b then 0 else if a < b then -1 else 1
       case Alpha(_) => -1)
    case Alpha(a) =>
      match right
      case Numeric(_) => 1
      case Alpha(b) => if a == b then 0 else if Less(a, b) then -1 else 1
  }

  /** The prerelease lists from `index` on. */
  function ComparePrereleases(left: seq<Identifier>, right: seq<Identifier>, index: nat): int
    requires index <= |left| && index <= |right|
    decreases |left| - index
  {
    if index == |left| && index == |right| then 0
    else if index == |left| then -1
    else if index == |right| then 1
    else
      var c := CompareIdentifiers(left[index], right[index]);
      if c != 0 then c else ComparePrereleases(left, right, index + 1)
  }

  function Compare(left: Version, right: Version): int {
    if left.major != right.major then if left.major < right.major then -1 else 1
    else if left.minor != right.minor then if left.minor < right.minor then -1 else 1
    else if left.patch != right.patch then if left.patch < right.patch then -1 else 1
    else if left.prerelease == [] && right.prerelease == [] then 0
    else if left.prerelease == [] then 1
    else if right.prerelease == [] then -1
    else ComparePrereleases(left.prerelease, right.prerelease, 0)
  }

  method CompareSemanticVersions(left: Version, right: Version) returns (order: int)
    ensures order == Compare(left, right)
    ensures order < 0 <==> Precedes(left, right)
    ensures order == 0 <==> SamePrecedence(left, right)
  {
    CompareIsPrecedence(left, right);
    var l, r := [left.major, left.minor, left.patch], [right.major, right.minor, right.patch];
    for key := 0 to 3
      invariant l[..key] == r[..key]
    {
      if l[key] != r[key] {
        assert key == 0 || l[0] == r[0] by { assert key > 0 ==> l[..key][0] == l[0] && r[..key][0] == r[0]; }
        assert key <= 1 || l[1] == r[1] by { assert key > 1 ==> l[..key][1] == l[1] && r[..key][1] == r[1]; }
        return if l[key] < r[key] then -1 else 1;
      }
    }
    assert l[..3][0] == r[..3][0] && l[..3][1] == r[..3][1] && l[..3][2] == r[..3][2];
    if |left.prerelease| == 0 && |right.prerelease| == 0 { return 0; }
    if |left.prerelease| == 0 { return 1; }
    if |right.prerelease| == 0 { return -1; }
    var maximumLength := if |left.prerelease| > |right.prerelease| then |left.prerelease| else |right.prerelease|;
    for index := 0 to maximumLength
      invariant index <= |left.prerelease| && index <= |right.prerelease|
      invariant Compare(left, right) == ComparePrereleases(left.prerelease, right.prerelease, index)
    {
      if index == |left.prerelease| { return -1; }
      if index == |right.prerelease| { return 1; }
      var comparison := CompareIdentifiers(left.prerelease[index], right.prerelease[index]);
      if comparison != 0 { return comparison; }
    }
    order := 0;
  }

  // ----- section 11 -----

  /** 11.4.1 to 11.4.3: numbers by value, text by code unit, numbers below text. */
  predicate IdentifierBelow(a: Identifier, b: Identifier) {
    || (a.Numeric? && b.Numeric? && a.n < b.n)
    || (a.Alpha? && b.Alpha? && Less(a.s, b.s))
    || (a.Numeric? && b.Alpha?)
  }

  /** The lists agree up to `i`, where the left one is lower or, by 11.4.4, ends first. */
  predicate LowerAt(a: seq<Identifier>, b: seq<Identifier>, i: nat) {
    && i <= |a| && i < |b| && a[..i] == b[..i]
    && (i == |a| || IdentifierBelow(a[i], b[i]))
  }

  ghost predicate PrereleaseBelow(a: seq<Identifier>, b: seq<Identifier>) {
    exists i :: LowerAt(a, b, i)
  }

  predicate CoreBelow(a: Version, b: Version) {
    || a.major < b.major
    || (a.major == b.major && a.minor < b.minor)
    || (a.major == b.major && a.minor == b.minor && a.patch < b.patch)
  }

  predicate SameCore(a: Version, b: Version) {
    a.major == b.major && a.minor == b.minor && a.patch == b.patch
  }

  /** 11.2 to 11.4: by core, then a prerelease below its release, then the identifiers. */
  ghost predicate Precedes(a: Version, b: Version) {
    || CoreBelow(a, b)
    || (SameCore(a, b) && a.prerelease != [] && (b.prerelease == [] || PrereleaseBelow(a.prerelease, b.prerelease)))
  }

  /** 11.1: build metadata plays no part. */
  predicate SamePrecedence(a: Version, b: Version) {
    SameCore(a, b) && a.prerelease == b.prerelease
  }

  lemma {:induction false} IdentifiersTrichotomy(a: Identifier, b: Identifier)
    ensures CompareIdentifiers(a, b) < 0 <==> IdentifierBelow(a, b)
    ensures CompareIdentifiers(a, b) > 0 <==> IdentifierBelow(b, a)
    ensures CompareIdentifiers(a, b) == 0 <==> a == b
    ensures !(IdentifierBelow(a, b) && IdentifierBelow(b, a)) && !IdentifierBelow(a, a)
  {
    if a.Alpha? && b.Alpha? {
      LessTotal(a.s, b.s);
      LessIrreflexive(a.s);
      if Less(b.s, a.s) { LessAsymmetric(a.s, b.s); }
    }
    if a.Alpha? { LessIrreflexive(a.s); }
  }

  lemma {:induction false} PrereleasesTrichotomy(a: seq<Identifier>, b: seq<Identifier>, index: nat)
    requires index <= |a| && index <= |b| && a[..index] == b[..index]
    ensures ComparePrereleases(a, b, index) < 0 <==> exists i :: index <= i && LowerAt(a, b, i)
    ensures ComparePrereleases(a, b, index) > 0 <==> exists i :: index <= i && LowerAt(b, a, i)
    ensures ComparePrereleases(a, b, index) == 0 <==> a == b
    decreases |a| - index
  {
    if index == |a| || index == |b| {
      assert a == a[..index] || b == b[..index];
      if index == |a| && index < |b| { assert LowerAt(a, b, index); NotLowerPast(b, a, index); }
      if index == |b| && index < |a| { assert LowerAt(b, a, index); NotLowerPast(a, b, index); }
      if index == |a| && index == |b| { assert a == a[..index] == b[..index] == b; NotLowerPast(a, b, index); NotLowerPast(b, a, index); }
    } else {
      IdentifiersTrichotomy(a[index], b[index]);
      if CompareIdentifiers(a[index], b[index]) != 0 {
        if IdentifierBelow(a[index], b[index]) { assert LowerAt(a, b, index); } else { assert LowerAt(b, a, index); }
        DifferBeyond(a, b, index);
        DifferBeyond(b, a, index);
        assert a[..index + 1] != b[..index + 1] by { assert a[..index + 1][index] == a[index] && b[..index + 1][index] == b[index]; }
      } else {
        assert a[..index + 1] == a[..index] + [a[index]] && b[..index + 1] == b[..index] + [b[index]];
        assert !LowerAt(a, b, index) && !LowerAt(b, a, index);
        PrereleasesTrichotomy(a, b, index + 1);
      }
    }
  }

  lemma NotLowerPast(a: seq<Identifier>, b: seq<Identifier>, index: nat)
    requires index == |b|
    ensures forall i :: index <= i ==> !LowerAt(a, b, i)
  {
  }

  lemma {:induction false} DifferBeyond(a: seq<Identifier>, b: seq<Identifier>, index: nat)
    requires index < |a| && index < |b| && a[index] != b[index]
    ensures forall i :: index < i ==> !LowerAt(a, b, i)
  {
    forall i | index < i ensures !LowerAt(a, b, i) {
      if i <= |a| && i <= |b| { assert a[..i][index] == a[index] && b[..i][index] == b[index]; }
    }
  }

  /** The comparison is exactly section 11: negative when the left precedes, positive when the right
      does, zero when they differ in build metadata at most. */
  lemma {:induction false} CompareIsPrecedence(a: Version, b: Version)
    ensures Compare(a, b) < 0 <==> Precedes(a, b)
    ensures Compare(a, b) > 0 <==> Precedes(b, a)
    ensures Compare(a, b) == 0 <==> SamePrecedence(a, b)
  {
    PrereleasesTrichotomy(a.prerelease, b.prerelease, 0);
    EmptyIsNotAbove(a.prerelease, b.prerelease);
  }

  lemma EmptyIsNotAbove(a: seq<Identifier>, b: seq<Identifier>)
    ensures PrereleaseBelow(a, b) <==> exists i :: 0 <= i && LowerAt(a, b, i)
    ensures PrereleaseBelow(b, a) <==> exists i :: 0 <= i && LowerAt(b, a, i)
  {
  }

  lemma {:induction false} IdentifierBelowTransitive(a: Identifier, b: Identifier, c: Identifier)
    requires IdentifierBelow(a, b) && IdentifierBelow(b, c)
    ensures IdentifierBelow(a, c)
  {
    if a.Alpha? && c.Alpha? { LessTransitive(a.s, b.s, c.s); }
  }

  lemma {:induction false} PrereleaseBelowTransitive(a: seq<Identifier>, b: seq<Identifier>, c: seq<Identifier>)
    requires PrereleaseBelow(a, b) && PrereleaseBelow(b, c)
    ensures PrereleaseBelow(a, c)
  {
    hide IdentifierBelow;
    var i: nat :| LowerAt(a, b, i);
    var j: nat :| LowerAt(b, c, j);
    var k := if i < j then i else j;
    assert a[..k] == b[..k] by { assert a[..i][..k] == b[..i][..k]; }
    assert b[..k] == c[..k] by { assert b[..j][..k] == c[..j][..k]; }
    if i < j { assert b[..j][i] == c[..j][i] == c[i]; }
    if j < i { assert a[..i][j] == b[..i][j] == b[j]; }
    if i == j && i < |a| { IdentifierBelowTransitive(a[i], b[i], c[i]); }
    assert LowerAt(a, c, k);
  }

  /** Precedence is a strict order, and versions that it does not separate differ in build metadata
      at most: `compareSemanticVersions` is a total preorder. */
  lemma {:induction false} CompareIsATotalPreorder(a: Version, b: Version, c: Version)
    ensures Compare(a, a) == 0
    ensures Compare(a, b) < 0 <==> Compare(b, a) > 0
    ensures Compare(a, b) <= 0 && Compare(b, a) <= 0 ==> SamePrecedence(a, b)
    ensures Compare(a, b) <= 0 && Compare(b, c) <= 0 ==> Compare(a, c) <= 0
    ensures Compare(a, b) < 0 && Compare(b, c) < 0 ==> Compare(a, c) < 0
  {
    hide Compare, PrereleaseBelow;
    CompareIsPrecedence(a, a);
    CompareIsPrecedence(a, b);
    CompareIsPrecedence(b, a);
    CompareIsPrecedence(b, c);
    CompareIsPrecedence(a, c);
    if PrereleaseBelow(a.prerelease, b.prerelease) && PrereleaseBelow(b.prerelease, c.prerelease) {
      PrereleaseBelowTransitive(a.prerelease, b.prerelease, c.prerelease);
    }
  }

  // ----- what kind of update -----

  datatype Difference = Major | Minor | Patch | Prerelease

  function NewerDifference(declared: Version, comparison: Version): Option<Difference> {
    if Compare(comparison, declared) <= 0 then None
    else if comparison.major != declared.major then Some(Major)
    else if comparison.minor != declared.minor then Some(Minor)
    else if comparison.patch != declared.patch then Some(Patch)
    else Some(Prerelease)
  }

  /** A difference is reported exactly for a strictly newer version, and it names the first component
      that rose; only prereleases can differ below the patch. */
  lemma {:induction false} DifferenceNamesTheFirstRise(declared: Version, comparison: Version)
    ensures NewerDifference(declared, comparison).Some? <==> Precedes(declared, comparison)
    ensures NewerDifference(declared, comparison) == Some(Major) <==> declared.major < comparison.major
    ensures NewerDifference(declared, comparison) == Some(Minor) <==> declared.major == comparison.major && declared.minor < comparison.minor
    ensures NewerDifference(declared, comparison) == Some(Patch) <==>
      declared.major == comparison.major && declared.minor == comparison.minor && declared.patch < comparison.patch
    ensures NewerDifference(declared, comparison) == Some(Prerelease) ==> SameCore(declared, comparison) && declared.prerelease != []
  {
    CompareIsPrecedence(comparison, declared);
  }
}
