/** String helpers shared by every module: prefixes, suffixes, JavaScript's code-unit order, and
    the insertion sort that stands for `Array.prototype.toSorted`. */
module Text {

  datatype Option<+T> = None | Some(value: T)

  predicate StartsWith(s: string, prefix: string) {
    prefix <= s
  }

  predicate EndsWith(s: string, suffix: string) {
    |suffix| <= |s| && s[|s| - |suffix|..] == suffix
  }

  /** `s` contains `c`. */
  predicate Has(s: string, c: char) {
    c in s
  }

  // ----- code-unit order -----

  /** JavaScript's `left < right` on strings. */
  predicate Less(left: string, right: string) {
    if right == "" then false
    else if left == "" then true
    else left[0] < right[0] || (left[0] == right[0] && Less(left[1..], right[1..]))
  }

  lemma LessIrreflexive(s: string)
    ensures !Less(s, s)
  {
    if s != "" { LessIrreflexive(s[1..]); }
  }

  lemma {:induction false} LessTransitive(a: string, b: string, c: string)
    requires Less(a, b) && Less(b, c)
    ensures Less(a, c)
  {
    if a != "" && a[0] == b[0] == c[0] {
      LessTransitive(a[1..], b[1..], c[1..]);
    }
  }

  lemma {:induction false} LessTotal(a: string, b: string)
    ensures Less(a, b) || Less(b, a) || a == b
  {
    if a != "" && b != "" && a[0] == b[0] {
      LessTotal(a[1..], b[1..]);
      assert a == [a[0]] + a[1..] && b == [b[0]] + b[1..];
    }
  }

  // ----- sequences -----

  function RemoveAt<T>(s: seq<T>, i: nat): seq<T>
    requires i < |s|
  {
    s[..i] + s[i + 1..]
  }

  function Mapped<T, U>(items: seq<T>, f: T -> U): (r: seq<U>)
    ensures |r| == |items| && forall i :: 0 <= i < |items| ==> r[i] == f(items[i])
  {
    seq(|items|, i requires 0 <= i < |items| => f(items[i]))
  }

  function Filter<T(!new)>(items: seq<T>, keep: T -> bool): (r: seq<T>)
    ensures forall x :: x in r <==> x in items && keep(x)
  {
    if items == [] then []
    else
      assert items == [items[0]] + items[1..];
      (if keep(items[0]) then [items[0]] else []) + Filter(items[1..], keep)
  }

  /** The head of a permutation, found in the other one. */
  lemma MatchInPermutation<T>(a: seq<T>, b: seq<T>) returns (i: nat)
    requires a != [] && multiset(a) == multiset(b)
    ensures i < |b| && b[i] == a[0] && multiset(a[1..]) == multiset(RemoveAt(b, i))
  {
    assert a[0] in multiset(b);
    i :| 0 <= i < |b| && b[i] == a[0];
    assert a == [a[0]] + a[1..];
    assert b == b[..i] + ([b[i]] + b[i + 1..]);
    assert multiset(RemoveAt(b, i)) == multiset(b) - multiset{b[i]};
    assert multiset(a[1..]) == multiset(a) - multiset{a[0]};
  }

  // ----- sorting -----

  /** Inserts `x` in front of the first element that must come after it. */
  function Insert<T>(before: (T, T) -> bool, x: T, s: seq<T>): (r: seq<T>)
    ensures multiset(r) == multiset(s) + multiset{x}
    ensures |r| == |s| + 1
  {
    if s == [] then [x]
    else if before(x, s[0]) then [x] + s
    else
      assert s == [s[0]] + s[1..];
      [s[0]] + Insert(before, x, s[1..])
  }

  /** Insertion sort: the elements of `s`, rearranged. */
  function Sort<T>(before: (T, T) -> bool, s: seq<T>): (r: seq<T>)
    ensures multiset(r) == multiset(s)
    ensures |r| == |s|
  {
    if s == [] then []
    else
      assert s == [s[0]] + s[1..];
      Insert(before, s[0], Sort(before, s[1..]))
  }

  lemma SortMembers<T>(before: (T, T) -> bool, s: seq<T>)
    ensures forall x :: x in s <==> x in Sort(before, s)
  {
    forall x
      ensures x in s <==> x in Sort(before, s)
    {
      assert x in s <==> x in multiset(s);
      assert x in Sort(before, s) <==> x in multiset(Sort(before, s));
    }
  }

  /** `left` may stand before `right` when sorting by `key`. */
  function ByKey<T>(key: T -> string): (T, T) -> bool {
    (left, right) => !Less(key(right), key(left))
  }

  predicate InOrder<T>(key: T -> string, s: seq<T>) {
    forall i, j :: 0 <= i < j < |s| ==> !Less(key(s[j]), key(s[i]))
  }

  /** No two different elements share a key. */
  ghost predicate KeyedApart<T(!new)>(key: T -> string, s: seq<T>) {
    forall x, y :: x in s && y in s && key(x) == key(y) ==> x == y
  }

  lemma NotLessTransitive(a: string, b: string, c: string)
    requires !Less(b, a) && !Less(c, b)
    ensures !Less(c, a)
  {
    LessTotal(a, b);
    LessTotal(b, c);
    if Less(c, a) {
      if a != b { LessTransitive(c, a, b); }
    }
  }

  lemma {:induction false} InsertInOrder<T>(key: T -> string, x: T, s: seq<T>)
    requires InOrder(key, s)
    ensures InOrder(key, Insert(ByKey(key), x, s))
  {
    var r := Insert(ByKey(key), x, s);
    if s == [] {
    } else if ByKey(key)(x, s[0]) {
      LessIrreflexive(key(s[0]));
      forall j | 0 < j < |r|
        ensures !Less(key(r[j]), key(x))
      {
        NotLessTransitive(key(x), key(s[0]), key(s[j - 1]));
      }
    } else {
      var rest := Insert(ByKey(key), x, s[1..]);
      InsertInOrder(key, x, s[1..]);
      LessAsymmetric(key(x), key(s[0]));
      forall j | 0 < j < |r|
        ensures !Less(key(r[j]), key(s[0]))
      {
        assert r[j] == rest[j - 1];
        assert rest[j - 1] in multiset(rest);
        assert s == [s[0]] + s[1..];
      }
    }
  }

  lemma LessAsymmetric(a: string, b: string)
    requires Less(b, a)
    ensures !Less(a, b)
  {
    if Less(a, b) { LessTransitive(a, b, a); LessIrreflexive(a); }
  }

  lemma {:induction false} SortInOrder<T>(key: T -> string, s: seq<T>)
    ensures InOrder(key, Sort(ByKey(key), s))
  {
    if s != [] {
      SortInOrder(key, s[1..]);
      InsertInOrder(key, s[0], Sort(ByKey(key), s[1..]));
    }
  }

  lemma {:induction false} SameHead<T(!new)>(key: T -> string, a: seq<T>, b: seq<T>)
    requires InOrder(key, a) && InOrder(key, b) && multiset(a)
      == multiset(b) && KeyedApart(key, a) && a != [] && b != []
    ensures a[0] == b[0]
  {
    assert a[0] in multiset(b) && b[0] in multiset(a);
    var i :| 0 <= i < |a| && a[i] == b[0];
    var j :| 0 <= j < |b| && b[j] == a[0];
    LessTotal(key(a[0]), key(b[0]));
    LessIrreflexive(key(a[0]));
    assert !Less(key(a[i]), key(a[0]));
    assert !Less(key(b[j]), key(b[0]));
  }

  lemma TailInOrder<T>(key: T -> string, s: seq<T>)
    requires InOrder(key, s) && s != []
    ensures InOrder(key, s[1..])
  {
    hide Less;
  }

  lemma TailApart<T(!new)>(key: T -> string, s: seq<T>)
    requires KeyedApart(key, s) && s != []
    ensures KeyedApart(key, s[1..])
  {
  }

  lemma {:induction false} OrderIsUnique<T(!new)>(key: T -> string, a: seq<T>, b: seq<T>)
    requires InOrder(key, a) && InOrder(key, b) && multiset(a) == multiset(b) && KeyedApart(key, a)
    ensures a == b
  {
    hide InOrder, KeyedApart;
    assert |b| == |multiset(b)| == |multiset(a)| == |a|;
    if a != [] {
      SameHead(key, a, b);
      TailInOrder(key, a);
      TailInOrder(key, b);
      TailApart(key, a);
      assert a == [a[0]] + a[1..] && b == [b[0]] + b[1..];
      assert multiset(a[1..]) == multiset(a) - multiset{a[0]};
      assert multiset(b[1..]) == multiset(b) - multiset{b[0]};
      OrderIsUnique(key, a[1..], b[1..]);
    }
  }

  /** Sorting by distinct keys forgets the order the elements came in. */
  lemma PermutationsSortAlike<T(!new)>(key: T -> string, a: seq<T>, b: seq<T>)
    requires multiset(a) == multiset(b) && KeyedApart(key, a)
    ensures Sort(ByKey(key), a) == Sort(ByKey(key), b)
  {
    SortInOrder(key, a);
    SortInOrder(key, b);
    SortMembers(ByKey(key), a);
    OrderIsUnique(key, Sort(ByKey(key), a), Sort(ByKey(key), b));
  }
}
