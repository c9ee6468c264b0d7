/** The abstract values of `static-configuration-parser.ts` and what they stand for. `Unknown` is the
    source's `UNKNOWN` symbol: as an array slot it stands for any run of elements, as a field for any
    value or none. An open object (the source's `opaque` set) may have further keys. `Merge` is exact
    about when it is sound. */
module StaticValues {
  import opened Text

  datatype Prim = Str(s: string) | Num(n: real) | Bool(b: bool) | Null

  /** A value of one concrete run; `VOther` is a function or symbol. */
  datatype V = VUndefined | VPrim(p: Prim) | VArr(items: seq<V>) | VObj(fields: map<string, V>) | VOther(tag: nat)

  datatype A = Unknown | Known(p: Prim) | Arr(items: seq<A>) | Obj(fields: map<string, A>, open: bool)

  // ----- meaning -----

  ghost predicate Means(a: A, v: V)
    decreases a, 0
  {
    match a
    case Unknown => true
    case Known(p) => v == VPrim(p)
    case Arr(items) => v.VArr? && Run(items, v.items)
    case Obj(fields, open) =>
      && v.VObj?
      && (forall k :: k in fields ==> fields[k].Unknown? || (k in v.fields && Means(fields[k], v.fields[k])))
      && (!open ==> forall k :: k in v.fields ==> k in fields)
  }

  /** The elements, in order; an unknown slot is any run of them. */
  ghost predicate Run(slots: seq<A>, elements: seq<V>)
    decreases slots, 1
  {
    if slots == [] then elements == []
    else if slots[0].Unknown? then exists n :: 0 <= n <= |elements| && Run(slots[1..], elements[n..])
    else elements != [] && Means(slots[0], elements[0]) && Run(slots[1..], elements[1..])
  }

  lemma {:induction false} RunAppend(a: seq<A>, x: seq<V>, b: seq<A>, y: seq<V>)
    requires Run(a, x) && Run(b, y)
    ensures Run(a + b, x + y)
    decreases |a|
  {
    if a == [] {
      assert a + b == b && x + y == y;
    } else {
      assert (a + b)[0] == a[0] && (a + b)[1..] == a[1..] + b;
      if a[0].Unknown? {
        var n :| 0 <= n <= |x| && Run(a[1..], x[n..]);
        RunAppend(a[1..], x[n..], b, y);
        assert (x + y)[n..] == x[n..] + y;
      } else {
        RunAppend(a[1..], x[1..], b, y);
        assert (x + y)[0] == x[0] && (x + y)[1..] == x[1..] + y;
      }
    }
  }

  lemma {:induction false} RunOne(a: A, v: V)
    requires Means(a, v)
    ensures Run([a], [v])
  {
    assert [a][1..] == [] && [v][1..] == [];
    assert Run([], []);
  }

  lemma {:induction false} RunAny(elements: seq<V>)
    ensures Run([Unknown], elements)
  {
    assert [Unknown][1..] == [];
    assert elements[|elements|..] == [];
    assert Run([], elements[|elements|..]);
  }

  // ----- flattening, as eslint's `defineConfig` does -----

  function FlatA(items: seq<A>, levels: nat): seq<A>
    decreases levels, |items|
  {
    if items == [] then []
    else (if items[0].Arr? && levels > 0 then FlatA(items[0].items, levels - 1) else [items[0]]) + FlatA(items[1..],
      levels)
  }

  function FlatV(items: seq<V>, levels: nat): seq<V>
    decreases levels, |items|
  {
    if items == [] then []
    else (if items[0].VArr? && levels > 0 then FlatV(items[0].items, levels - 1) else [items[0]]) + FlatV(items[1..],
      levels)
  }

  lemma {:induction false} FlatVAppend(x: seq<V>, y: seq<V>, levels: nat)
    ensures FlatV(x + y, levels) == FlatV(x, levels) + FlatV(y, levels)
    decreases |x|
  {
    if x == [] { assert x + y == y; }
    else {
      assert (x + y)[0] == x[0] && (x + y)[1..] == x[1..] + y;
      FlatVAppend(x[1..], y, levels);
    }
  }

  lemma {:induction false} FlatIsSound(items: seq<A>, elements: seq<V>, levels: nat)
    requires Run(items, elements)
    ensures Run(FlatA(items, levels), FlatV(elements, levels))
    decreases levels, |items|
  {
    if items != [] {
      if items[0].Unknown? {
        var n :| 0 <= n <= |elements| && Run(items[1..], elements[n..]);
        FlatIsSound(items[1..], elements[n..], levels);
        RunAny(FlatV(elements[..n], levels));
        RunAppend([items[0]], FlatV(elements[..n], levels), FlatA(items[1..], levels), FlatV(elements[n..], levels));
        FlatVAppend(elements[..n], elements[n..], levels);
        assert elements[..n] + elements[n..] == elements;
      } else {
        FlatIsSound(items[1..], elements[1..], levels);
        var head := if items[0].Arr? && levels > 0 then FlatA(items[0].items, levels - 1) else [items[0]];
        var headV := if elements[0].VArr? && levels > 0 then FlatV(elements[0].items, levels - 1) else [elements[0]];
        if items[0].Arr? && levels > 0 { FlatIsSound(items[0].items, elements[0].items, levels - 1); }
        else { RunOne(items[0], elements[0]); }
        RunAppend(head, headV, FlatA(items[1..], levels), FlatV(elements[1..], levels));
      }
    }
  }

  // ----- merging, as Vite's `mergeConfig` does -----

  function FieldPath(prefix: string, key: string): string {
    if prefix == "" then key else prefix + "." + key
  }

  predicate SpecialField(field: string) {
    field in ["resolve.alias", "alias", "assetsInclude", "ssr.noExternal", "worker.plugins", "server.allowedHosts"]
  }

  function ItemsA(a: A): seq<A> {
    if a.Arr? then a.items else [a]
  }

  function Left(left: A): A {
    if left.Unknown? then Obj(map[], true) else left
  }

  /** The value under `key` before the override, as far as it is known; `None` is known absence. */
  function OldA(left: A, rightOpen: bool, key: string): Option<A>
    requires left.Obj?
  {
    if key in left.fields then Some(if rightOpen then Unknown else left.fields[key])
    else if left.open then Some(Unknown)
    else None
  }

  function Merge(left: A, right: A, prefix: string): A
    decreases right, 0
  {
    var l := Left(left);
    if !l.Obj? || !right.Obj? then Unknown
    else Obj(
      map k | k in l.fields.Keys + right.fields.Keys && (k in l.fields || right.fields[k] != Known(Null)) ::
        if k in right.fields && right.fields[k] != Known(Null)
        then Override(OldA(l, right.open, k), right.fields[k], FieldPath(prefix, k))
        else if right.open then Unknown else l.fields[k],
      l.open || right.open)
  }

  function Override(prior: Option<A>, value: A, field: string): A
    decreases value, 1
  {
    if SpecialField(field) && prior.Some? then Unknown
    else if value.Unknown? then Unknown
    else if prior == Some(Unknown) then
      if value.Obj? then Merge(Unknown, value, field)
      else if value.Arr? then Arr([Unknown] + value.items)
      else value
    else if prior.Some? && prior.value.Obj? && value.Obj? then Merge(prior.value, value, field)
    else if (prior.Some? && prior.value.Arr?) || value.Arr? then
      if prior == None then value else Arr(ItemsA(prior.value) + ItemsA(value))
    else value
  }

  /** What the run's own tools decide where the merge rules do not: special fields, and merging
      something that is not an object. */
  datatype MergeTools = MergeTools(special: (V, V) -> V, others: (V, V) -> V)

  function ItemsV(v: V): seq<V> {
    if v.VArr? then v.items else [v]
  }

  predicate Nullish(v: V) {
    v == VUndefined || v == VPrim(Null)
  }

  function OldV(left: V, key: string): V
    requires left.VObj?
  {
    if key in left.fields then left.fields[key] else VUndefined
  }

  /** The same rules on the values of one run, where everything is known. */
  function MergeV(tools: MergeTools, left: V, right: V, prefix: string): V
    decreases right, 0
  {
    if !left.VObj? || !right.VObj? then tools.others(left, right)
    else VObj(
      map k | k in left.fields.Keys + right.fields.Keys && (k in left.fields || !Nullish(right.fields[k])) ::
        if k in right.fields && !Nullish(right.fields[k])
        then OverrideV(tools, OldV(left, k), right.fields[k], FieldPath(prefix, k))
        else left.fields[k])
  }

  function OverrideV(tools: MergeTools, prior: V, value: V, field: string): V
    decreases value, 1
  {
    if SpecialField(field) && prior != VUndefined then tools.special(prior, value)
    else if prior.VObj? && value.VObj? then MergeV(tools, prior, value, field)
    else if prior.VArr? || value.VArr? then
      if prior.VUndefined? then value else VArr(ItemsV(prior) + ItemsV(value))
    else value
  }

  // ----- exactly when the abstract merge is sound -----

  /** No array of this run is overridden by a known scalar or object while the evaluator does not
      know the overridden field (because it is unresolved, or because the override is open). */
  ghost predicate Guard(left: A, right: A, l: V, r: V, prefix: string)
    requires Left(left).Obj? && right.Obj? && l.VObj? && r.VObj?
    decreases right, 0
  {
    forall k :: k in right.fields && k in r.fields && right.fields[k] != Known(Null) ==>
      OverrideGuard(OldA(Left(left), right.open, k), right.fields[k], OldV(l, k), r.fields[k], FieldPath(prefix, k))
  }

  ghost predicate OverrideGuard(prior: Option<A>, value: A, oldV: V, valueV: V, field: string)
    decreases value, 1
  {
    if (SpecialField(field) && prior.Some?) || value.Unknown? || value.Arr? then true
    else if prior == Some(Unknown) then
      && !oldV.VArr?
      && (value.Obj? && oldV.VObj? && valueV.VObj? ==> Guard(Unknown, value, oldV, valueV, field))
    else if prior.Some? && prior.value.Obj? && value.Obj? && oldV.VObj? && valueV.VObj? then Guard(prior.value, value,
      oldV, valueV, field)
    else true
  }

  ghost predicate MeansOld(prior: Option<A>, v: V) {
    if prior == None then v == VUndefined else Means(prior.value, v)
  }

  lemma OldMeans(left: A, l: V, rightOpen: bool, key: string)
    requires Left(left).Obj? && l.VObj? && Means(left, l)
    ensures MeansOld(OldA(Left(left), rightOpen, key), OldV(l, key))
  {
  }

  lemma {:induction false} MergeIsSoundExactlyWhenGuarded(tools: MergeTools, left: A, right: A, l: V, r: V,
      prefix: string)
    requires Left(left).Obj? && right.Obj? && l.VObj? && r.VObj?
    requires Means(left, l) && Means(right, r)
    ensures Means(Merge(left, right, prefix), MergeV(tools, l, r, prefix)) <==> Guard(left, right, l, r, prefix)
    decreases right, 0
  {
    hide SpecialField, Override, OverrideV, OverrideGuard, FieldPath;
    var merged := Merge(left, right, prefix);
    var mergedV := MergeV(tools, l, r, prefix);
    forall k | k in right.fields && right.fields[k] != Known(Null) && !right.fields[k].Unknown?
      ensures k in r.fields && k in merged.fields && k in mergedV.fields
      ensures Means(merged.fields[k], mergedV.fields[k]) <==>
        OverrideGuard(OldA(Left(left), right.open, k), right.fields[k], OldV(l, k), r.fields[k], FieldPath(prefix, k))
    {
      OldMeans(left, l, right.open, k);
      OverrideIsSoundExactlyWhenGuarded(tools, OldA(Left(left), right.open, k), right.fields[k], OldV(l, k),
        r.fields[k], FieldPath(prefix, k));
    }
    forall k | k in right.fields && right.fields[k].Unknown? && k in r.fields
      ensures OverrideGuard(OldA(Left(left), right.open, k), right.fields[k], OldV(l, k), r.fields[k],
        FieldPath(prefix, k))
      ensures Override(OldA(Left(left), right.open, k), right.fields[k], FieldPath(prefix, k)).Unknown?
    {
      UnknownOverride(OldA(Left(left), right.open, k), OldV(l, k), r.fields[k], FieldPath(prefix, k));
    }
    KeysOfMerge(tools, left, right, l, r, prefix);
  }

  lemma UnknownOverride(prior: Option<A>, oldV: V, valueV: V, field: string)
    ensures OverrideGuard(prior, Unknown, oldV, valueV, field) && Override(prior, Unknown, field).Unknown?
  {
  }

  /** Apart from the known, non-null overrides every field of the merge is right. */
  lemma {:induction false} KeysOfMerge(tools: MergeTools, left: A, right: A, l: V, r: V, prefix: string)
    requires Left(left).Obj? && right.Obj? && l.VObj? && r.VObj?
    requires Means(left, l) && Means(right, r)
    ensures var merged := Merge(left, right, prefix);
      var mergedV := MergeV(tools, l, r, prefix);
      && merged.Obj? && mergedV.VObj?
      && (!merged.open ==> forall k :: k in mergedV.fields ==> k in merged.fields)
      && (forall k :: k in merged.fields && (k in right.fields ==> right.fields[k].Unknown? || right.fields[k] == Known(Null)) ==>
            merged.fields[k].Unknown? || (k in mergedV.fields && Means(merged.fields[k], mergedV.fields[k])))
  {
    hide SpecialField, OverrideV, FieldPath;
    forall prior: Option<A>, field: string ensures Override(prior, Unknown, field).Unknown? { UnknownOverride(prior, VUndefined, VUndefined, field); }
  }

  lemma {:induction false} OverrideIsSoundExactlyWhenGuarded(tools: MergeTools, prior: Option<A>, value: A, oldV: V,
      valueV: V, field: string)
    requires MeansOld(prior, oldV) && Means(value, valueV) && value != Known(Null) && !value.Unknown?
    ensures Means(Override(prior, value, field), OverrideV(tools, oldV, valueV, field)) <==> OverrideGuard(prior,
      value, oldV, valueV, field)
    decreases value, 1
  {
    hide SpecialField, Merge, MergeV, Guard, Run;
    if SpecialField(field) && prior.Some? { return; }
    if prior == Some(Unknown) {
      if value.Obj? {
        if oldV.VObj? { MergeIsSoundExactlyWhenGuarded(tools, Unknown, value, oldV, valueV, field); }
        else { MergeUnknownCovers(value, valueV, field); }
        MergeIsObject(Unknown, value, field);
      } else if value.Arr? {
        RunAny(if oldV.VUndefined? then [] else ItemsV(oldV));
        RunAppend([Unknown], if oldV.VUndefined? then [] else ItemsV(oldV), value.items, valueV.items);
        assert [] + valueV.items == valueV.items;
      }
    } else if prior.Some? && prior.value.Obj? && value.Obj? {
      MergeIsSoundExactlyWhenGuarded(tools, prior.value, value, oldV, valueV, field);
    } else if prior.Some? && (prior.value.Arr? || value.Arr?) {
      if !prior.value.Arr? { RunOne(prior.value, oldV); }
      if !value.Arr? { RunOne(value, valueV); }
      RunAppend(ItemsA(prior.value), ItemsV(oldV), ItemsA(value), ItemsV(valueV));
    }
  }

  /** Merging this into anything tells nothing. */
  predicate Blank(right: A)
    requires right.Obj?
  {
    forall k :: k in right.fields ==> right.fields[k].Unknown? || right.fields[k] == Known(Null) || SpecialField(k)
  }

  lemma {:induction false} BlankMergeCovers(right: A, v: V)
    requires right.Obj? && Blank(right) && v.VObj?
    ensures Means(Merge(Unknown, right, ""), v)
  {
    hide SpecialField;
    forall k | k in right.fields && right.fields[k] != Known(Null)
      ensures Override(Some(Unknown), right.fields[k], FieldPath("", k)).Unknown?
    {
    }
  }

  /** A merge whose sides are not the arguments the evaluator took them for (spread arguments shift
      them) is described rightly in every run exactly when the right side tells nothing. */
  lemma {:induction false} ShiftedMergeIsSoundExactlyWhenBlank(tools: MergeTools, right: A)
    requires right.Obj?
    ensures (forall l: V, r: V :: l.VObj? && r.VObj? ==> Means(Merge(Unknown, right, ""), MergeV(tools, l, r, ""))) <==> Blank(right)
  {
    hide SpecialField, MergeV;
    forall l: V, r: V | l.VObj? && r.VObj? ensures MergeV(tools, l, r, "").VObj? { MergeVIsObject(tools, l, r); }
    if Blank(right) {
      forall l: V, r: V | l.VObj? && r.VObj? ensures Means(Merge(Unknown, right, ""), MergeV(tools, l, r, "")) {
        BlankMergeCovers(right, MergeV(tools, l, r, ""));
      }
    } else {
      var k :| k in right.fields && !right.fields[k].Unknown? && right.fields[k] != Known(Null) && !SpecialField(k);
      NothingMerged(tools);
      assert FieldPath("", k) == k;
      assert !Override(Some(Unknown), right.fields[k], k).Unknown? by {
        if right.fields[k].Obj? { MergeIsObject(Unknown, right.fields[k], k); }
      }
      assert !Means(Merge(Unknown, right, ""), VObj(map[]));
      assert !Means(Merge(Unknown, right, ""), MergeV(tools, VObj(map[]), VObj(map[]), ""));
    }
  }

  lemma MergeVIsObject(tools: MergeTools, l: V, r: V)
    requires l.VObj? && r.VObj?
    ensures MergeV(tools, l, r, "").VObj?
  {
  }

  lemma NothingMerged(tools: MergeTools)
    ensures MergeV(tools, VObj(map[]), VObj(map[]), "") == VObj(map[])
  {
  }

  lemma MergeIsObject(left: A, right: A, prefix: string)
    requires Left(left).Obj? && right.Obj?
    ensures Merge(left, right, prefix).Obj?
  {
  }

  /** Overriding something unresolved still describes the override alone. */
  lemma {:induction false} MergeUnknownCovers(value: A, v: V, field: string)
    requires value.Obj? && Means(value, v)
    ensures Means(Merge(Unknown, value, field), v)
    decreases value
  {
    hide SpecialField, FieldPath;
    forall k | k in value.fields && value.fields[k] != Known(Null)
      ensures var f := Override(Some(Unknown), value.fields[k], FieldPath(field, k));
        f.Unknown? || (k in v.fields && Means(f, v.fields[k]))
    {
      if value.fields[k].Obj? { MergeUnknownCovers(value.fields[k], v.fields[k], FieldPath(field, k)); }
      else if value.fields[k].Arr? {
        RunAny([]);
        RunAppend([Unknown], [], value.fields[k].items, v.fields[k].items);
        assert [] + v.fields[k].items == v.fields[k].items;
      }
    }
  }

  /** Where the source's merge goes wrong: an unresolved left field that is an array is dropped by a
      scalar override, although the run appends to it. */
  lemma UnresolvedArrayIsLost()
    ensures var left, right := Obj(map["plugins" := Unknown], false), Obj(map["plugins" := Known(Str("b"))], false);
      var l, r := VObj(map["plugins" := VArr([VPrim(Str("a"))])]), VObj(map["plugins" := VPrim(Str("b"))]);
      var tools := MergeTools((x, y) => x, (x, y) => x);
      Means(left, l) && Means(right, r) && !Means(Merge(left, right, ""), MergeV(tools, l, r, ""))
  {
    var left, right := Obj(map["plugins" := Unknown], false), Obj(map["plugins" := Known(Str("b"))], false);
    var l, r := VObj(map["plugins" := VArr([VPrim(Str("a"))])]), VObj(map["plugins" := VPrim(Str("b"))]);
    assert "plugins" in right.fields && right.fields["plugins"] == Known(Str("b"));
    assert !OverrideGuard(Some(Unknown), Known(Str("b")), VArr([VPrim(Str("a"))]), VPrim(Str("b")), "plugins");
    assert !Guard(left, right, l, r, "") by { assert FieldPath("", "plugins") == "plugins"; }
    MergeIsSoundExactlyWhenGuarded(MergeTools((x, y) => x, (x, y) => x), left, right, l, r, "");
  }

  /** The same happens to a left field that is known, when the override spreads something unknown. */
  lemma KnownArrayIsLostUnderAnOpenOverride()
    ensures var left, right := Obj(map["plugins" := Arr([])], false), Obj(map["plugins" := Known(Str("b"))], true);
      var l, r := VObj(map["plugins" := VArr([])]), VObj(map["plugins" := VPrim(Str("b"))]);
      var tools := MergeTools((x, y) => x, (x, y) => x);
      Means(left, l) && Means(right, r) && !Means(Merge(left, right, ""), MergeV(tools, l, r, ""))
  {
    var left, right := Obj(map["plugins" := Arr([])], false), Obj(map["plugins" := Known(Str("b"))], true);
    var l, r := VObj(map["plugins" := VArr([])]), VObj(map["plugins" := VPrim(Str("b"))]);
    assert "plugins" in right.fields && right.fields["plugins"] == Known(Str("b"));
    assert !OverrideGuard(Some(Unknown), Known(Str("b")), VArr([]), VPrim(Str("b")), "plugins");
    assert !Guard(left, right, l, r, "") by { assert FieldPath("", "plugins") == "plugins"; }
    MergeIsSoundExactlyWhenGuarded(MergeTools((x, y) => x, (x, y) => x), left, right, l, r, "");
  }
}
