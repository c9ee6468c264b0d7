/** The static evaluator is precise where it can be: an expression that is settled (written out, or
    bound once and for all to something settled) is answered with exactly its value, and the inspection
    reports it with nothing unresolved. */
module StaticPrecision {
  import opened Text
  import opened StaticValues
  import opened StaticEvaluatorModel
  import opened StaticEvaluatorSafety
  import opened StaticInspection

  // ----- plain values and what describes exactly one of them -----

  /** Nothing but primitives, arrays and objects. */
  predicate Plain(v: V) {
    match v
    case VPrim(_) => true
    case VArr(items) => forall x :: x in items ==> Plain(x)
    case VObj(fields) => forall k :: k in fields ==> Plain(fields[k])
    case _ => false
  }

  function Quote(v: V): A {
    match v
    case VPrim(p) => Known(p)
    case VArr(items) => Arr(seq(|items|, i requires 0 <= i < |items| => Quote(items[i])))
    case VObj(fields) => Obj(map k | k in fields :: Quote(fields[k]), false)
    case _ => Unknown
  }

  function Quotes(items: seq<V>): (r: seq<A>)
    ensures |r| == |items| && forall i :: 0 <= i < |items| ==> r[i] == Quote(items[i])
  {
    seq(|items|, i requires 0 <= i < |items| => Quote(items[i]))
  }

  lemma QuoteOfItems(items: seq<V>)
    ensures Quote(VArr(items)) == Arr(Quotes(items))
  {
  }

  lemma PlainIsKnown(v: V)
    requires Plain(v)
    ensures !Quote(v).Unknown?
  {
  }

  /** A quoted value describes itself and nothing else. */
  lemma {:induction false} QuoteMeansOnly(v: V, x: V)
    requires Plain(v)
    ensures Means(Quote(v), x) <==> x == v
    decreases v, 1, 0
  {
    match v {
      case VArr(items) =>
        if x.VArr? { QuotesRunOnly(v, items, x.items); }
        QuoteOfItems(items);
      case VObj(fields) =>
        forall k | k in fields && x.VObj? && k in x.fields
          ensures Means(Quote(fields[k]), x.fields[k]) <==> x.fields[k] == fields[k]
        {
          QuoteMeansOnly(fields[k], x.fields[k]);
        }
        forall k | k in fields ensures !Quote(fields[k]).Unknown? { PlainIsKnown(fields[k]); }
        if x.VObj? && Means(Quote(v), x) { assert x.fields == fields; }
      case _ =>
    }
  }

  lemma {:induction false} QuotesRunOnly(whole: V, items: seq<V>, elements: seq<V>)
    requires forall x :: x in items ==> Plain(x) && x < whole
    ensures Run(Quotes(items), elements) <==> elements == items
    decreases whole, 0, |items|
  {
    hide Means;
    if items == [] { return; }
    var slots := Quotes(items);
    assert items[0] in items;
    PlainIsKnown(items[0]);
    assert slots[1..] == Quotes(items[1..]);
    if elements != [] {
      QuoteMeansOnly(items[0], elements[0]);
      QuotesRunOnly(whole, items[1..], elements[1..]);
      assert elements == items <==> elements[0] == items[0] && elements[1..] == items[1..] by {
        assert elements == [elements[0]] + elements[1..] && items == [items[0]] + items[1..];
      }
    }
  }

  // ----- merging and flattening plain values -----

  lemma {:induction false} FlatOfQuotes(items: seq<V>, levels: nat)
    requires forall x :: x in items ==> Plain(x)
    ensures FlatA(Quotes(items), levels) == Quotes(FlatV(items, levels))
    ensures forall x :: x in FlatV(items, levels) ==> Plain(x)
    decreases levels, |items|
  {
    if items == [] { return; }
    assert items[0] in items && Quotes(items)[1..] == Quotes(items[1..]);
    FlatOfQuotes(items[1..], levels);
    if items[0].VArr? {
      QuoteOfItems(items[0].items);
      if levels > 0 { FlatOfQuotes(items[0].items, levels - 1); }
    }
    var head := if items[0].VArr? && levels > 0 then FlatV(items[0].items, levels - 1) else [items[0]];
    QuotesAppend(head, FlatV(items[1..], levels));
    assert Quotes([items[0]]) == [Quote(items[0])];
  }

  lemma QuotesAppend(a: seq<V>, b: seq<V>)
    ensures Quotes(a + b) == Quotes(a) + Quotes(b)
  {
  }

  /** No field that the tools treat specially is overridden, at any depth. */
  predicate MergesPlainly(left: V, right: V, prefix: string)
    decreases right
  {
    && left.VObj? && right.VObj?
    && forall k :: k in right.fields && k in left.fields && !Nullish(right.fields[k]) ==>
         && !SpecialField(FieldPath(prefix, k))
         && (left.fields[k].VObj? && right.fields[k].VObj? ==>
               MergesPlainly(left.fields[k], right.fields[k], FieldPath(prefix, k)))
  }

  /** One field of the merge, described and in the run. */
  predicate FieldAlike(tools: MergeTools, left: V, right: V, prefix: string, k: string)
    requires left.VObj? && right.VObj? && k in right.fields
  {
    var value, field := right.fields[k], FieldPath(prefix, k);
    var prior := if k in left.fields then Some(Quote(left.fields[k])) else None;
    && Override(prior, Quote(value), field) == Quote(OverrideV(tools, OldV(left, k), value, field))
    && Plain(OverrideV(tools, OldV(left, k), value, field))
  }

  lemma FieldsAreAlike(tools: MergeTools, left: V, right: V, prefix: string)
    requires Plain(left) && Plain(right) && left.VObj? && right.VObj?
    requires forall k :: k in right.fields && !Nullish(right.fields[k]) ==> FieldAlike(tools, left, right, prefix, k)
    ensures Merge(Quote(left), Quote(right), prefix) == Quote(MergeV(tools, left, right, prefix))
    ensures Plain(MergeV(tools, left, right, prefix))
  {
    hide SpecialField, FieldPath, Override, OverrideV;
    forall k | k in right.fields
      ensures right.fields[k] == VPrim(Null) <==> Quote(right.fields[k]) == Known(Null)
      ensures Nullish(right.fields[k]) <==> right.fields[k] == VPrim(Null)
    {
      assert Plain(right.fields[k]);
    }
    var merged, mergedV := Merge(Quote(left), Quote(right), prefix), MergeV(tools, left, right, prefix);
    assert merged.fields.Keys == mergedV.fields.Keys;
    forall k | k in mergedV.fields ensures merged.fields[k] == Quote(mergedV.fields[k]) && Plain(mergedV.fields[k]) {
      if k in right.fields && !Nullish(right.fields[k]) { assert FieldAlike(tools, left, right, prefix, k); }
    }
    assert merged.fields == Quote(mergedV).fields;
  }

  lemma {:induction false} MergeOfQuotes(tools: MergeTools, left: V, right: V, prefix: string)
    requires Plain(left) && Plain(right) && MergesPlainly(left, right, prefix)
    ensures Merge(Quote(left), Quote(right), prefix) == Quote(MergeV(tools, left, right, prefix))
    ensures Plain(MergeV(tools, left, right, prefix))
    decreases right, 0
  {
    hide SpecialField, FieldPath, Override, OverrideV, Merge, MergeV, Quote;
    forall k | k in right.fields && !Nullish(right.fields[k]) ensures FieldAlike(tools, left, right, prefix, k) {
      OverrideOfQuotes(tools, if k in left.fields then Some(left.fields[k]) else None, right.fields[k],
        FieldPath(prefix, k));
    }
    FieldsAreAlike(tools, left, right, prefix);
  }

  lemma {:induction false} OverrideOfQuotes(tools: MergeTools, prior: Option<V>, value: V, field: string)
    requires Plain(value) && (prior.Some? ==> Plain(prior.value) && !SpecialField(field))
    requires prior.Some? && prior.value.VObj? && value.VObj? ==> MergesPlainly(prior.value, value, field)
    ensures var before := if prior.Some? then prior.value else VUndefined;
      var oldA := if prior.Some? then Some(Quote(prior.value)) else None;
      && Override(oldA, Quote(value), field) == Quote(OverrideV(tools, before, value, field))
      && Plain(OverrideV(tools, before, value, field))
    decreases value, 1
  {
    hide SpecialField, Merge, MergeV;
    PlainIsKnown(value);
    if prior.Some? {
      PlainIsKnown(prior.value);
      if prior.value.VObj? && value.VObj? { MergeOfQuotes(tools, prior.value, value, field); }
      else if prior.value.VArr? || value.VArr? {
        QuotesAppend(ItemsV(prior.value), ItemsV(value));
        ItemsOfQuote(prior.value);
        ItemsOfQuote(value);
        QuoteOfItems(ItemsV(prior.value) + ItemsV(value));
      }
    }
  }

  lemma ItemsOfQuote(v: V)
    requires Plain(v)
    ensures ItemsA(Quote(v)) == Quotes(ItemsV(v)) && forall x :: x in ItemsV(v) ==> Plain(x)
  {
    if v.VArr? { QuoteOfItems(v.items); }
  }

  // ----- settled expressions -----

  /** Written out to the last part, as far as `levels` go down: literals, arrays and objects of settled
      parts, spreads of settled arrays and objects, fields that are there, names that nothing mutates and
      that are bound, not in terms of themselves, to something settled, and the calls whose result is fixed. */
  ghost predicate Settled(env: Env, w: World, e: Expr, seen: set<string>, levels: nat)
    decreases levels, 2
  {
    match e
    case Literal(_) => true
    case Negated(_) => true
    case Wrapped(inner) => levels > 0 && Settled(env, w, inner, seen, levels - 1)
    case Ident(name) =>
      && name !in env.mutated && name !in seen
      && (if name in env.imports then Plain(w.binding(name)) && env.imports[name].value == Quote(w.binding(name))
          else name in env.bindings && levels > 0 && Settled(env, w, env.bindings[name], seen + {name}, levels - 1))
    case Member(target, name) =>
      levels > 0 && Settled(env, w, target, seen, levels - 1) && HasOwn(Value(env, w, target), name)
    case Index(target, property) =>
      && levels > 0 && Settled(env, w, target, seen, levels - 1) && Settled(env, w, property, seen, levels - 1)
      && IsString(Value(env, w, property)) && HasOwn(Value(env, w, target), Value(env, w, property).p.s)
    case ArrayLit(elements) => forall k :: 0 <= k < |elements| ==> SettledElement(env, w, elements[k], seen, levels)
    case ObjectLit(properties) => forall k :: 0 <= k < |properties| ==> SettledProperty(env, w, properties[k], seen,
      levels)
    case Call(callee, arguments) =>
      && callee in env.imports && Recognized(env.imports[callee]) && callee !in env.mutated
      && (forall k :: 0 <= k < |arguments| ==> arguments[k].Item? && SettledElement(env, w, arguments[k], seen, levels))
      && FixedCall(env.imports[callee], ValueElements(env, w, arguments))
    case Unsupported(_) => false
  }

  predicate HasOwn(v: V, key: string) {
    v.VObj? && key in v.fields
  }

  predicate IsString(v: V) {
    v.VPrim? && v.p.Str?
  }

  /** `defineConfig`, of one configuration or of eslint's list, or a `mergeConfig` that meets no special field. */
  predicate FixedCall(i: Import, values: seq<V>) {
    if i.imported == "mergeConfig" then
      && 2 <= |values| <= 3 && MergesPlainly(values[0], values[1], "")
      && (|values| == 3 ==> values[2].VPrim? && values[2].p.Bool?)
    else i.source == "eslint/config" || |values| == 1
  }

  ghost predicate SettledElement(env: Env, w: World, element: Element, seen: set<string>, levels: nat)
    decreases levels, 1
  {
    && !element.Hole? && levels > 0 && Settled(env, w, element.e, seen, levels - 1)
    && (element.Spread? ==> Value(env, w, element.e).VArr?)
  }

  ghost predicate SettledProperty(env: Env, w: World, property: Property, seen: set<string>, levels: nat)
    decreases levels, 1
  {
    match property
    case SpreadIn(e) => levels > 0 && Settled(env, w, e, seen, levels - 1) && Value(env, w, e).VObj?
    case Field(key, value, _) =>
      && !SetsPrototype(property) && levels > 0 && SettledKey(env, w, key, seen, levels)
      && Settled(env, w, value, seen, levels - 1)
    case Method(_) => false
  }

  ghost predicate SettledKey(env: Env, w: World, key: Key, seen: set<string>, levels: nat)
    decreases levels, 0
  {
    || key.Named?
    || (key.Computed? && levels > 0 && Settled(env, w, key.e, seen, levels - 1) && IsString(Value(env, w, key.e)))
  }

  // ----- how many nodes the evaluator visits -----

  function Nodes(env: Env, e: Expr, levels: nat): nat
    decreases levels, 2, 0
  {
    1 + if levels == 0 then 0 else match e
      case Wrapped(inner) => Nodes(env, inner, levels - 1)
      case Ident(name) => if name !in env.imports && name in env.bindings then Nodes(env, env.bindings[name], levels - 1) else 0
      case Member(target, _) => Nodes(env, target, levels - 1)
      case Index(target, property) => Nodes(env, target, levels - 1) + Nodes(env, property, levels - 1)
      case ArrayLit(elements) => NodesOfElements(env, elements, levels)
      case ObjectLit(properties) => NodesOfProperties(env, properties, levels)
      case Call(_, arguments) => NodesOfElements(env, arguments, levels)
      case _ => 0
  }

  function NodesOfElements(env: Env, elements: seq<Element>, levels: nat): nat
    requires levels > 0
    decreases levels, 1, |elements|
  {
    if elements == [] then 0
    else (if elements[0].Hole? then 1 else Nodes(env, elements[0].e, levels - 1)) + NodesOfElements(env, elements[1..],
      levels)
  }

  function NodesOfKey(env: Env, key: Key, levels: nat): nat
    requires levels > 0
    decreases levels, 0, 0
  {
    if key.Computed? then Nodes(env, key.e, levels - 1) else 0
  }

  function NodesOfProperty(env: Env, property: Property, levels: nat): nat
    requires levels > 0
    decreases levels, 0, 1
  {
    match property
    case SpreadIn(e) => Nodes(env, e, levels - 1)
    case Field(key, value, _) => NodesOfKey(env, key, levels) + Nodes(env, value, levels - 1)
    case Method(key) => NodesOfKey(env, key, levels)
  }

  function NodesOfProperties(env: Env, properties: seq<Property>, levels: nat): nat
    requires levels > 0
    decreases levels, 1, |properties|
  {
    if properties == [] then 0
    else NodesOfProperty(env, properties[0], levels) + NodesOfProperties(env, properties[1..], levels)
  }

  // ----- precision -----

  /** The evaluator answers with the value, having visited so many nodes. */
  predicate Exactly(answer: A, s: EvalState, v: V, s0: EvalState, nodes: nat) {
    answer == Quote(v) && Plain(v) && s.nodes == s0.nodes + nodes && s.resolving == s0.resolving
  }

  function LevelsLeft(depth: nat): nat {
    if depth <= MAX_DEPTH then MAX_DEPTH - depth else 0
  }

  lemma {:induction false} EvalIsPrecise(env: Env, w: World, s0: EvalState, e: Expr, depth: nat)
    requires Consistent(env, w) && depth <= MAX_DEPTH
    requires Settled(env, w, e, s0.resolving, LevelsLeft(depth))
    requires s0.nodes + Nodes(env, e, LevelsLeft(depth)) <= MAX_NODES
    ensures var (a, s1) := Eval(env, s0, e, depth);
      Exactly(a, s1, Value(env, w, e), s0, Nodes(env, e, LevelsLeft(depth)))
    decreases LevelsLeft(depth), 3, 0
  {
    hide Eval, Value, Settled, Nodes, Exactly;
    match e {
      case Literal(_) => LeafIsPrecise(env, w, s0, e, depth);
      case Negated(_) => LeafIsPrecise(env, w, s0, e, depth);
      case Wrapped(_) => NestedIsPrecise(env, w, s0, e, depth);
      case Ident(_) => NestedIsPrecise(env, w, s0, e, depth);
      case Member(_, _) => NestedIsPrecise(env, w, s0, e, depth);
      case Index(target, property) => IndexIsPrecise(env, w, s0, target, property, depth);
      case ArrayLit(elements) => ArrayIsPrecise(env, w, s0, elements, depth);
      case ObjectLit(properties) => ObjectIsPrecise(env, w, s0, properties, depth);
      case Call(callee, arguments) => CallIsPrecise(env, w, s0, callee, arguments, depth);
      case Unsupported(_) => LeafIsPrecise(env, w, s0, e, depth);
    }
  }

  lemma LeafIsPrecise(env: Env, w: World, s0: EvalState, e: Expr, depth: nat)
    requires depth <= MAX_DEPTH && Settled(env, w, e, s0.resolving, LevelsLeft(depth))
    requires e.Literal? || e.Negated? || e.Unsupported?
    requires s0.nodes + Nodes(env, e, LevelsLeft(depth)) <= MAX_NODES
    ensures var (a, s1) := Eval(env, s0, e, depth);
      Exactly(a, s1, Value(env, w, e), s0, Nodes(env, e, LevelsLeft(depth)))
  {
    if e.Literal? { QuoteOfPrim(e.p); } else if e.Negated? { QuoteOfPrim(Num(-e.n)); }
  }

  lemma {:induction false} NestedIsPrecise(env: Env, w: World, s0: EvalState, e: Expr, depth: nat)
    requires Consistent(env, w) && depth <= MAX_DEPTH && (e.Wrapped? || e.Ident? || e.Member?)
    requires Settled(env, w, e, s0.resolving, LevelsLeft(depth))
    requires s0.nodes + Nodes(env, e, LevelsLeft(depth)) <= MAX_NODES
    ensures var (a, s1) := Eval(env, s0, e, depth);
      Exactly(a, s1, Value(env, w, e), s0, Nodes(env, e, LevelsLeft(depth)))
    decreases LevelsLeft(depth), 2, 0
  {
    hide Quote, Plain, Recognized, PluginSource, Run;
    var s := s0.(nodes := s0.nodes + 1);
    match e {
      case Wrapped(inner) => EvalIsPrecise(env, w, s, inner, depth + 1);
      case Ident(name) =>
        if name !in env.imports {
          EvalIsPrecise(env, w, s.(resolving := s.resolving + {name}), env.bindings[name], depth + 1);
          assert (s.resolving + {name}) - {name} == s.resolving;
        } else {
          ImportedIsUnique(env, w, name);
        }
      case Member(target, name) =>
        EvalIsPrecise(env, w, s, target, depth + 1);
        FieldOfQuote(Value(env, w, target), name);
    }
  }

  lemma ImportedIsUnique(env: Env, w: World, name: string)
    requires name in env.imports && Plain(w.binding(name)) && env.imports[name].value == Quote(w.binding(name))
    ensures Value(env, w, Ident(name)) == w.binding(name)
  {
  }

  /** What the evaluator and a run make of an indexed access whose two parts are answered exactly. */
  lemma IndexFromParts(env: Env, w: World, s0: EvalState, target: Expr, property: Expr, depth: nat)
    requires depth <= MAX_DEPTH && s0.nodes < MAX_NODES
    requires var (a, s1) := Eval(env, s0.(nodes := s0.nodes + 1), target, depth + 1);
      && a == Quote(Value(env, w, target)) && Plain(Value(env, w, target))
      && Eval(env, s1, property, depth + 1).0 == Quote(Value(env, w, property))
    requires IsString(Value(env, w, property)) && HasOwn(Value(env, w, target), Value(env, w, property).p.s)
    ensures var (a, s1) := Eval(env, s0.(nodes := s0.nodes + 1), target, depth + 1);
      var v := Value(env, w, target).fields[Value(env, w, property).p.s];
      && Plain(v) && Value(env, w, Index(target, property)) == v
      && Eval(env, s0, Index(target, property), depth) == (Quote(v), Eval(env, s1, property, depth + 1).1)
  {
    hide Quote, Plain;
    QuoteOfPrim(Value(env, w, property).p);
    FieldOfQuote(Value(env, w, target), Value(env, w, property).p.s);
  }

  lemma {:induction false} IndexIsPrecise(env: Env, w: World, s0: EvalState, target: Expr, property: Expr, depth: nat)
    requires Consistent(env, w) && depth <= MAX_DEPTH
    requires Settled(env, w, Index(target, property), s0.resolving, LevelsLeft(depth))
    requires s0.nodes + Nodes(env, Index(target, property), LevelsLeft(depth)) <= MAX_NODES
    ensures var (a, s1) := Eval(env, s0, Index(target, property), depth);
      Exactly(a, s1, Value(env, w, Index(target, property)), s0, Nodes(env, Index(target, property), LevelsLeft(depth)))
    decreases LevelsLeft(depth), 2, 0
  {
    hide Quote, Plain, Eval, Value;
    var s := s0.(nodes := s0.nodes + 1);
    EvalIsPrecise(env, w, s, target, depth + 1);
    EvalIsPrecise(env, w, Eval(env, s, target, depth + 1).1, property, depth + 1);
    IndexFromParts(env, w, s0, target, property, depth);
  }

  lemma {:induction false} ArrayIsPrecise(env: Env, w: World, s0: EvalState, elements: seq<Element>, depth: nat)
    requires Consistent(env, w) && depth <= MAX_DEPTH
    requires Settled(env, w, ArrayLit(elements), s0.resolving, LevelsLeft(depth))
    requires s0.nodes + Nodes(env, ArrayLit(elements), LevelsLeft(depth)) <= MAX_NODES
    ensures var (a, s1) := Eval(env, s0, ArrayLit(elements), depth);
      Exactly(a, s1, Value(env, w, ArrayLit(elements)), s0, Nodes(env, ArrayLit(elements), LevelsLeft(depth)))
    decreases LevelsLeft(depth), 2, |elements| + 1
  {
    hide Quote, Plain, EvalElement, ValueElement;
    var s := s0.(nodes := s0.nodes + 1);
    var values := ValueElements(env, w, elements);
    QuoteOfItems(values);
    PlainItems(values);
    if elements == [] { assert Quotes([]) == []; return; }
    assert SettledElement(env, w, elements[0], s0.resolving, LevelsLeft(depth));
    ElementsArePrecise(env, w, s, elements, depth);
  }

  lemma {:induction false} ObjectIsPrecise(env: Env, w: World, s0: EvalState, properties: seq<Property>, depth: nat)
    requires Consistent(env, w) && depth <= MAX_DEPTH
    requires Settled(env, w, ObjectLit(properties), s0.resolving, LevelsLeft(depth))
    requires s0.nodes + Nodes(env, ObjectLit(properties), LevelsLeft(depth)) <= MAX_NODES
    ensures var (a, s1) := Eval(env, s0, ObjectLit(properties), depth);
      Exactly(a, s1, Value(env, w, ObjectLit(properties)), s0, Nodes(env, ObjectLit(properties), LevelsLeft(depth)))
    decreases LevelsLeft(depth), 2, |properties| + 1
  {
    hide Quote, Plain, EvalProperty, ValueProperty;
    var s := s0.(nodes := s0.nodes + 1);
    NothingIsBuiltExactly();
    if properties != [] {
      assert SettledProperty(env, w, properties[0], s0.resolving, LevelsLeft(depth));
      PropertiesArePrecise(env, w, s, properties, NOTHING, map[], depth);
    }
    BuiltExactlyIsQuote(EvalProperties(env, s, properties, NOTHING, depth).0,
      ValueProperties(env, w, properties, map[]));
  }

  lemma QuoteOfPrim(p: Prim)
    ensures Quote(VPrim(p)) == Known(p) && Plain(VPrim(p))
  {
  }

  lemma PlainItems(items: seq<V>)
    ensures Plain(VArr(items)) <==> forall x :: x in items ==> Plain(x)
  {
  }

  lemma FieldOfQuote(v: V, name: string)
    requires Plain(v) && HasOwn(v, name)
    ensures ReadField(Quote(v), name) == Quote(v.fields[name]) && Plain(v.fields[name])
  {
  }

  lemma {:induction false} CallIsPrecise(env: Env, w: World, s0: EvalState, callee: string, arguments: seq<Element>,
      depth: nat)
    requires Consistent(env, w) && depth <= MAX_DEPTH
    requires Settled(env, w, Call(callee, arguments), s0.resolving, LevelsLeft(depth))
    requires s0.nodes + Nodes(env, Call(callee, arguments), LevelsLeft(depth)) <= MAX_NODES
    ensures var (a, s1) := Eval(env, s0, Call(callee, arguments), depth);
      Exactly(a, s1, Value(env, w, Call(callee, arguments)), s0, Nodes(env, Call(callee, arguments), LevelsLeft(depth)))
    decreases LevelsLeft(depth), 2, |arguments| + 1
  {
    hide Merge, MergeV, FlatA, FlatV, Recognized, PluginSource, Quote, Plain, MergesPlainly;
    var s := s0.(nodes := s0.nodes + 1);
    var i := env.imports[callee];
    var values := ValueElements(env, w, arguments);
    if arguments != [] { ArgumentsArePrecise(env, w, s, arguments, depth); }
    var (slots, s1) := EvalArguments(env, s, arguments, depth);
    assert slots == Quotes(values) && forall x :: x in values ==> Plain(x);
    if i.imported == "mergeConfig" {
      assert values[0] in values && values[1] in values;
      if |values| == 3 { QuoteOfPrim(values[2].p); }
      MergeOfQuotes(w.tools, values[0], values[1], "");
    } else if i.source == "eslint/config" {
      FlatOfQuotes(values, FLAT_LEVELS);
      QuoteOfItems(FlatV(values, FLAT_LEVELS));
      PlainItems(FlatV(values, FLAT_LEVELS));
    } else {
      assert values[0] in values;
    }
  }

  lemma {:induction false} ArgumentsArePrecise(env: Env, w: World, s: EvalState, arguments: seq<Element>, depth: nat)
    requires Consistent(env, w) && depth < MAX_DEPTH
    requires forall k :: 0 <= k < |arguments| ==>
      arguments[k].Item? && SettledElement(env, w, arguments[k], s.resolving, LevelsLeft(depth))
    requires s.nodes + NodesOfElements(env, arguments, LevelsLeft(depth)) <= MAX_NODES
    ensures var (slots, s1) := EvalArguments(env, s, arguments, depth);
      var values := ValueElements(env, w, arguments);
      && slots == Quotes(values) && (forall x :: x in values ==> Plain(x))
      && s1.nodes == s.nodes + NodesOfElements(env, arguments, LevelsLeft(depth)) && s1.resolving == s.resolving
    decreases LevelsLeft(depth), 2, |arguments|
  {
    hide Eval, Value, Settled, Nodes, Quote, Plain;
    if arguments == [] { return; }
    var first, rest := arguments[0], arguments[1..];
    EvalIsPrecise(env, w, s, first.e, depth + 1);
    var (head, s1) := Eval(env, s, first.e, depth + 1);
    assert forall k :: 0 <= k < |rest| ==> rest[k] == arguments[k + 1];
    ArgumentsArePrecise(env, w, s1, rest, depth);
    QuotesAppend([Value(env, w, first.e)], ValueElements(env, w, rest));
    assert Quotes([Value(env, w, first.e)]) == [head];
  }

  lemma {:induction false} ElementsArePrecise(env: Env, w: World, s: EvalState, elements: seq<Element>, depth: nat)
    requires Consistent(env, w) && depth < MAX_DEPTH
    requires forall k :: 0 <= k < |elements| ==> SettledElement(env, w, elements[k], s.resolving, LevelsLeft(depth))
    requires s.nodes + NodesOfElements(env, elements, LevelsLeft(depth)) <= MAX_NODES
    ensures var (slots, s1) := EvalElements(env, s, elements, depth);
      var values := ValueElements(env, w, elements);
      && slots == Quotes(values) && (forall x :: x in values ==> Plain(x))
      && s1.nodes == s.nodes + NodesOfElements(env, elements, LevelsLeft(depth)) && s1.resolving == s.resolving
    decreases LevelsLeft(depth), 2, |elements|
  {
    hide Eval, Value, Settled, Nodes, Quote, Plain;
    if elements == [] { return; }
    var first, rest := elements[0], elements[1..];
    EvalIsPrecise(env, w, s, first.e, depth + 1);
    var (v, s1) := Eval(env, s, first.e, depth + 1);
    var value := Value(env, w, first.e);
    var head := ValueElement(env, w, first);
    if first.Spread? { QuoteOfItems(value.items); PlainItems(value.items); }
    else { assert Quotes([value]) == [v]; }
    assert forall k :: 0 <= k < |rest| ==> rest[k] == elements[k + 1];
    ElementsArePrecise(env, w, s1, rest, depth);
    QuotesAppend(head, ValueElements(env, w, rest));
  }

  /** The object built so far, exactly. */
  predicate BuiltExactly(b: Building, run: map<string, V>) {
    && !b.open && !b.phantom && b.fields.Keys == run.Keys
    && forall k :: k in run ==> Plain(run[k]) && b.fields[k] == Quote(run[k])
  }

  lemma NothingIsBuiltExactly()
    ensures BuiltExactly(NOTHING, map[])
  {
  }

  lemma BuiltExactlyIsQuote(b: Building, run: map<string, V>)
    requires BuiltExactly(b, run)
    ensures Obj(b.fields, b.open) == Quote(VObj(run)) && Plain(VObj(run))
  {
    assert b.fields == map k | k in run :: Quote(run[k]);
  }

  lemma {:induction false} PropertiesArePrecise(env: Env, w: World, s: EvalState, properties: seq<Property>,
      b: Building, run: map<string, V>, depth: nat)
    requires Consistent(env, w) && depth < MAX_DEPTH && BuiltExactly(b, run)
    requires forall k :: 0 <= k < |properties| ==>
      SettledProperty(env, w, properties[k], s.resolving, LevelsLeft(depth))
    requires s.nodes + NodesOfProperties(env, properties, LevelsLeft(depth)) <= MAX_NODES
    ensures var (end, s1) := EvalProperties(env, s, properties, b, depth);
      && BuiltExactly(end, ValueProperties(env, w, properties, run))
      && s1.nodes == s.nodes + NodesOfProperties(env, properties, LevelsLeft(depth)) && s1.resolving == s.resolving
    decreases LevelsLeft(depth), 2, |properties|
  {
    hide Eval, Value, Settled, EvalProperty, ValueProperty, NodesOfProperty, SettledProperty, BuiltExactly;
    if properties == [] { return; }
    var first, rest := properties[0], properties[1..];
    PropertyIsPrecise(env, w, s, first, b, run, depth);
    var (b', s1) := EvalProperty(env, s, first, b, depth);
    assert forall k :: 0 <= k < |rest| ==> rest[k] == properties[k + 1];
    PropertiesArePrecise(env, w, s1, rest, b', ValueProperty(env, w, first, run), depth);
  }

  lemma {:induction false} PropertyIsPrecise(env: Env, w: World, s: EvalState, property: Property, b: Building,
      run: map<string, V>, depth: nat)
    requires Consistent(env, w) && depth < MAX_DEPTH && BuiltExactly(b, run)
    requires SettledProperty(env, w, property, s.resolving, LevelsLeft(depth))
    requires s.nodes + NodesOfProperty(env, property, LevelsLeft(depth)) <= MAX_NODES
    ensures var (b', s1) := EvalProperty(env, s, property, b, depth);
      && BuiltExactly(b', ValueProperty(env, w, property, run))
      && s1.nodes == s.nodes + NodesOfProperty(env, property, LevelsLeft(depth)) && s1.resolving == s.resolving
    decreases LevelsLeft(depth), 1, 0
  {
    hide Eval, Value, Settled, Nodes, Quote, Plain;
    match property {
      case SpreadIn(e) =>
        EvalIsPrecise(env, w, s, e, depth + 1);
        var v := Value(env, w, e);
        forall k | k in v.fields
          ensures Plain(v.fields[k]) && ReadField(Quote(v), k) == Quote(v.fields[k])
        {
          FieldOfQuote(v, k);
        }
        QuoteIsObject(v);
      case Field(key, value, _) =>
        var (name, s1) := EvalKey(env, s, key, depth);
        if key.Computed? {
          EvalIsPrecise(env, w, s, key.e, depth + 1);
          QuoteOfPrim(Value(env, w, key.e).p);
        }
        EvalIsPrecise(env, w, s1, value, depth + 1);
    }
  }

  lemma QuoteIsObject(v: V)
    requires v.VObj?
    ensures Quote(v).Obj? && !Quote(v).open && Quote(v).fields.Keys == v.fields.Keys
  {
  }

  // ----- the inspection reports it whole -----

  predicate NestsWithin(v: V, levels: nat) {
    match v
    case VArr(items) => forall x :: x in items ==> levels > 0 && NestsWithin(x, levels - 1)
    case VObj(fields) => forall k :: k in fields ==> levels > 0 && NestsWithin(fields[k], levels - 1)
    case _ => true
  }

  /** How many nodes `clean` visits in the description of this value. */
  function Visits(order: FieldOrder, v: V): nat
    decreases v, 1, 0
  {
    match v
    case VArr(items) => 1 + VisitsOfItems(order, v, items)
    case VObj(fields) => 1 + VisitsOfFields(order, v, order(Quote(v).fields))
    case _ => 1
  }

  function VisitsOfItems(order: FieldOrder, whole: V, items: seq<V>): nat
    requires forall x :: x in items ==> x < whole
    decreases whole, 0, |items|
  {
    if items == [] then 0
    else
      assert items[0] in items && forall x :: x in items[1..] ==> x in items;
      Visits(order, items[0]) + VisitsOfItems(order, whole, items[1..])
  }

  function VisitsOfFields(order: FieldOrder, v: V, keys: seq<string>): nat
    requires v.VObj?
    decreases v, 0, |keys|
  {
    if keys == [] then 0
    else (if keys[0] in v.fields then Visits(order, v.fields[keys[0]]) else 0) + VisitsOfFields(order, v, keys[1..])
  }

  lemma {:induction false} CleanLeavesNothing(order: FieldOrder, v: V, path: Path, depth: nat, s0: CleanState)
    requires Plain(v) && depth <= MAX_DEPTH && NestsWithin(v, LevelsLeft(depth))
    requires s0.nodes + Visits(order, v) <= MAX_NODES
    ensures Clean(order, Quote(v), path, depth, s0).1 == s0.(nodes := s0.nodes + Visits(order, v))
    decreases v, 1, 0
  {
    var s := s0.(nodes := s0.nodes + 1);
    match v {
      case VArr(items) =>
        QuoteOfItems(items);
        ItemsLeaveNothing(order, v, items, path, 0, depth, s);
      case VObj(fields) =>
        QuoteIsObject(v);
        FieldsLeaveNothing(order, v, order(Quote(v).fields), path, depth, s);
      case _ =>
    }
  }

  lemma {:induction false} ItemsLeaveNothing(order: FieldOrder, whole: V, items: seq<V>, path: Path, index: nat,
      depth: nat, s: CleanState)
    requires forall x :: x in items ==>
      x < whole && Plain(x) && LevelsLeft(depth) > 0 && NestsWithin(x, LevelsLeft(depth) - 1)
    requires depth <= MAX_DEPTH && s.nodes + VisitsOfItems(order, whole, items) <= MAX_NODES
    ensures CleanItems(order, Quotes(items), path, index, depth, s).1
      == s.(nodes := s.nodes + VisitsOfItems(order, whole, items))
    decreases whole, 0, |items|
  {
    hide Plain, NestsWithin, Clean, Visits;
    if items == [] { return; }
    assert items[0] in items && forall x :: x in items[1..] ==> x in items;
    assert Quotes(items)[1..] == Quotes(items[1..]);
    CleanLeavesNothing(order, items[0], path + [At(index)], depth + 1, s);
    var s1 := Clean(order, Quote(items[0]), path + [At(index)], depth + 1, s).1;
    ItemsLeaveNothing(order, whole, items[1..], path, index + 1, depth, s1);
  }

  lemma {:induction false} FieldsLeaveNothing(order: FieldOrder, v: V, keys: seq<string>, path: Path, depth: nat,
      s: CleanState)
    requires v.VObj? && Plain(v) && depth <= MAX_DEPTH && NestsWithin(v, LevelsLeft(depth))
    requires s.nodes + VisitsOfFields(order, v, keys) <= MAX_NODES
    ensures Quote(v).Obj?
    ensures CleanFields(order, Quote(v), keys, path, depth, s).1
      == s.(nodes := s.nodes + VisitsOfFields(order, v, keys))
    decreases v, 0, |keys|
  {
    hide Clean, Visits;
    QuoteIsObject(v);
    if keys == [] { return; }
    if keys[0] in v.fields {
      FieldOfQuote(v, keys[0]);
      CleanLeavesNothing(order, v.fields[keys[0]], path + [Under(keys[0])], depth + 1, s);
      var s1 := Clean(order, Quote(v.fields[keys[0]]), path + [Under(keys[0])], depth + 1, s).1;
      FieldsLeaveNothing(order, v, keys[1..], path, depth, s1);
    } else {
      FieldsLeaveNothing(order, v, keys[1..], path, depth, s);
    }
  }

  /** Settled from the start, and within the evaluator's budgets. */
  ghost predicate SettledExport(env: Env, w: World, e: Expr) {
    Settled(env, w, e, {}, MAX_DEPTH) && Nodes(env, e, MAX_DEPTH) <= MAX_NODES
  }

  /** A settled export is answered with its value: the answer describes that value and no other. */
  lemma {:induction false} SettledIsAnsweredExactly(env: Env, w: World, e: Expr, v: V)
    requires Consistent(env, w) && SettledExport(env, w, e)
    ensures Means(Eval(env, FRESH, e, 0).0, v) <==> v == Value(env, w, e)
  {
    hide Eval, Value, Settled, Nodes;
    EvalIsPrecise(env, w, FRESH, e, 0);
    QuoteMeansOnly(Value(env, w, e), v);
  }

  /** And when it is an object or an array that fits the budgets of `clean`, the inspection reports it
      as it is, with nothing unresolved. */
  lemma {:induction false} SettledIsReportedWhole(order: FieldOrder, env: Env, w: World, exported: Expr)
    requires Enumerates(order) && Consistent(env, w) && SettledExport(env, w, exported)
    requires var v := Value(env, w, exported);
      (v.VObj? || v.VArr?) && NestsWithin(v, MAX_DEPTH) && Visits(order, v) <= MAX_NODES
    ensures Inspect(order, env, exported, false) == (Some(Value(env, w, exported)), [])
  {
    hide Eval, Value, Settled, Nodes, Clean, Visits;
    var v := Value(env, w, exported);
    EvalIsPrecise(env, w, FRESH, exported, 0);
    QuoteMeansOnly(v, v);
    CleanLeavesNothing(order, v, [], 0, CleanState(0, []));
    CleanIsWhole(order, Quote(v), [], 0, CleanState(0, []), v);
  }
}
