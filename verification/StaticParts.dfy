/** Where an export is only partly settled, its settled parts still survive: what surrounds them may stay
    unresolved, but each settled field of a literal that is written out is answered with exactly its value
    and reported by the inspection. */
module StaticParts {
  import opened Text
  import opened StaticValues
  import opened StaticEvaluatorModel
  import opened StaticEvaluatorSafety
  import opened StaticInspection
  import opened StaticPrecision

  // ----- the evaluator's bookkeeping, whatever it meets -----

  lemma {:induction false} EvalIsBounded(env: Env, s0: EvalState, e: Expr, depth: nat)
    requires depth <= MAX_DEPTH + 1
    ensures var s1 := Eval(env, s0, e, depth).1;
      s1.nodes <= s0.nodes + Nodes(env, e, Fuel(depth)) && s1.resolving == s0.resolving
    decreases Fuel(depth), 2, 0
  {
    hide Merge, FlatA, Recognized, PluginSource, MergeArity, EvalElements, EvalArguments, EvalProperties;
    var s := s0.(nodes := s0.nodes + 1);
    if s.nodes > MAX_NODES || depth > MAX_DEPTH { return; }
    match e {
      case Wrapped(inner) => EvalIsBounded(env, s, inner, depth + 1);
      case Ident(name) =>
        if name !in env.mutated && name !in s.resolving && name !in env.imports && name in env.bindings {
          NameIsBounded(env, s, name, depth);
        }
      case Member(target, _) => EvalIsBounded(env, s, target, depth + 1);
      case Index(target, property) => IndexIsBounded(env, s, target, property, depth);
      case ArrayLit(elements) => ElementsAreBounded(env, s, elements, depth);
      case ObjectLit(properties) => PropertiesAreBounded(env, s, properties, NOTHING, depth);
      case Call(callee, arguments) => ArgumentsAreBounded(env, s, arguments, depth);
      case _ =>
    }
  }

  lemma {:induction false} NameIsBounded(env: Env, s: EvalState, name: string, depth: nat)
    requires depth <= MAX_DEPTH && name in env.bindings && name !in s.resolving
    ensures var s1 := Eval(env, s.(resolving := s.resolving + {name}), env.bindings[name], depth + 1).1;
      && s1.nodes <= s.nodes + Nodes(env, env.bindings[name], Fuel(depth + 1))
      && s1.resolving - {name} == s.resolving
    decreases Fuel(depth), 1, 0
  {
    hide Eval, Nodes;
    EvalIsBounded(env, s.(resolving := s.resolving + {name}), env.bindings[name], depth + 1);
    assert (s.resolving + {name}) - {name} == s.resolving;
  }

  lemma {:induction false} IndexIsBounded(env: Env, s: EvalState, target: Expr, property: Expr, depth: nat)
    requires depth <= MAX_DEPTH
    ensures var s1 := Eval(env, s, target, depth + 1).1;
      var s2 := Eval(env, s1, property, depth + 1).1;
      && s2.nodes <= s.nodes + Nodes(env, target, Fuel(depth + 1)) + Nodes(env, property, Fuel(depth + 1))
      && s2.resolving == s.resolving
    decreases Fuel(depth), 1, 0
  {
    hide Eval, Nodes;
    EvalIsBounded(env, s, target, depth + 1);
    EvalIsBounded(env, Eval(env, s, target, depth + 1).1, property, depth + 1);
  }

  lemma {:induction false} ElementsAreBounded(env: Env, s: EvalState, elements: seq<Element>, depth: nat)
    requires depth <= MAX_DEPTH
    ensures var s1 := EvalElements(env, s, elements, depth).1;
      s1.nodes <= s.nodes + NodesOfElements(env, elements, Fuel(depth)) && s1.resolving == s.resolving
    decreases Fuel(depth), 1, |elements|
  {
    hide Eval, Nodes;
    if elements == [] { return; }
    if !elements[0].Hole? { EvalIsBounded(env, s, elements[0].e, depth + 1); }
    ElementsAreBounded(env, EvalElement(env, s, elements[0], depth).1, elements[1..], depth);
  }

  lemma {:induction false} ArgumentsAreBounded(env: Env, s: EvalState, arguments: seq<Element>, depth: nat)
    requires depth <= MAX_DEPTH
    ensures var s1 := EvalArguments(env, s, arguments, depth).1;
      s1.nodes <= s.nodes + NodesOfElements(env, arguments, Fuel(depth)) && s1.resolving == s.resolving
    decreases Fuel(depth), 1, |arguments|
  {
    hide Eval;
    if arguments == [] { return; }
    if arguments[0].Item? { EvalIsBounded(env, s, arguments[0].e, depth + 1); }
    var s1 := if arguments[0].Item? then Eval(env, s, arguments[0].e, depth + 1).1 else s.(nodes := s.nodes + 1);
    ArgumentsAreBounded(env, s1, arguments[1..], depth);
  }

  lemma {:induction false} KeyIsBounded(env: Env, s: EvalState, key: Key, depth: nat)
    requires depth <= MAX_DEPTH
    ensures var s1 := EvalKey(env, s, key, depth).1;
      s1.nodes <= s.nodes + NodesOfKey(env, key, Fuel(depth)) && s1.resolving == s.resolving
    decreases Fuel(depth), 0, 0
  {
    hide Eval, Nodes;
    if key.Computed? { EvalIsBounded(env, s, key.e, depth + 1); }
  }

  lemma {:induction false} PropertyIsBounded(env: Env, s: EvalState, property: Property, b: Building, depth: nat)
    requires depth <= MAX_DEPTH
    ensures var s1 := EvalProperty(env, s, property, b, depth).1;
      s1.nodes <= s.nodes + NodesOfProperty(env, property, Fuel(depth)) && s1.resolving == s.resolving
    decreases Fuel(depth), 0, 1
  {
    hide Eval, Nodes, EvalKey;
    match property {
      case SpreadIn(e) => EvalIsBounded(env, s, e, depth + 1);
      case Field(key, value, _) =>
        KeyIsBounded(env, s, key, depth);
        EvalIsBounded(env, EvalKey(env, s, key, depth).1, value, depth + 1);
      case Method(key) => KeyIsBounded(env, s, key, depth);
    }
  }

  lemma {:induction false} PropertiesAreBounded(env: Env, s: EvalState, properties: seq<Property>, b: Building,
      depth: nat)
    requires depth <= MAX_DEPTH
    ensures var s1 := EvalProperties(env, s, properties, b, depth).1;
      s1.nodes <= s.nodes + NodesOfProperties(env, properties, Fuel(depth)) && s1.resolving == s.resolving
    decreases Fuel(depth), 1, |properties|
  {
    hide EvalProperty, NodesOfProperty;
    if properties == [] { return; }
    PropertyIsBounded(env, s, properties[0], b, depth);
    var (b', s') := EvalProperty(env, s, properties[0], b, depth);
    PropertiesAreBounded(env, s', properties[1..], b', depth);
  }

  // ----- deeper budgets are larger -----

  lemma {:induction false} NodesGrow(env: Env, e: Expr, levels: nat)
    ensures Nodes(env, e, levels) <= Nodes(env, e, levels + 1)
    decreases levels, 2, 0
  {
    hide NodesOfElements, NodesOfProperties;
    if levels == 0 { return; }
    match e {
      case Wrapped(inner) => NodesGrow(env, inner, levels - 1);
      case Ident(name) =>
        if name !in env.imports && name in env.bindings { NodesGrow(env, env.bindings[name], levels - 1); }
      case Member(target, _) => NodesGrow(env, target, levels - 1);
      case Index(target, property) =>
        NodesGrow(env, target, levels - 1);
        NodesGrow(env, property, levels - 1);
      case ArrayLit(elements) => NodesOfElementsGrow(env, elements, levels);
      case ObjectLit(properties) => NodesOfPropertiesGrow(env, properties, levels);
      case Call(_, arguments) => NodesOfElementsGrow(env, arguments, levels);
      case _ =>
    }
  }

  lemma {:induction false} NodesOfElementsGrow(env: Env, elements: seq<Element>, levels: nat)
    requires levels > 0
    ensures NodesOfElements(env, elements, levels) <= NodesOfElements(env, elements, levels + 1)
    decreases levels, 1, |elements|
  {
    hide Nodes;
    if elements == [] { return; }
    if !elements[0].Hole? { NodesGrow(env, elements[0].e, levels - 1); }
    NodesOfElementsGrow(env, elements[1..], levels);
  }

  lemma {:induction false} NodesOfPropertyGrow(env: Env, property: Property, levels: nat)
    requires levels > 0
    ensures NodesOfProperty(env, property, levels) <= NodesOfProperty(env, property, levels + 1)
    decreases levels, 0, 0
  {
    hide Nodes;
    match property {
      case SpreadIn(e) => NodesGrow(env, e, levels - 1);
      case Field(key, value, _) =>
        if key.Computed? { NodesGrow(env, key.e, levels - 1); }
        NodesGrow(env, value, levels - 1);
      case Method(key) => if key.Computed? { NodesGrow(env, key.e, levels - 1); }
    }
  }

  lemma {:induction false} NodesOfPropertiesGrow(env: Env, properties: seq<Property>, levels: nat)
    requires levels > 0
    ensures NodesOfProperties(env, properties, levels) <= NodesOfProperties(env, properties, levels + 1)
    decreases levels, 1, |properties|
  {
    hide NodesOfProperty;
    if properties == [] { return; }
    NodesOfPropertyGrow(env, properties[0], levels);
    NodesOfPropertiesGrow(env, properties[1..], levels);
  }

  // ----- settled parts of what is not settled -----

  predicate NamedField(property: Property) {
    property.Field? && property.key.Named? && !SetsPrototype(property)
  }

  /** Fields under names that are written out, each once. */
  predicate WrittenOut(properties: seq<Property>) {
    && (forall k :: 0 <= k < |properties| ==> NamedField(properties[k]))
    && (forall j, k :: 0 <= j < k < |properties| ==> properties[j].key.name != properties[k].key.name)
  }

  function NamesOf(properties: seq<Property>): set<string> {
    set k | 0 <= k < |properties| && NamedField(properties[k]) :: properties[k].key.name
  }

  /** The answer holds every settled part: a settled expression has its value; a literal that is written
      out has exactly its fields, or elements, each of which in turn shows its settled parts; wrappers,
      names bound once and `defineConfig` show what they stand for. */
  ghost predicate Shows(env: Env, w: World, e: Expr, a: A, seen: set<string>, levels: nat)
    decreases levels, 1
  {
    && (Settled(env, w, e, seen, levels) ==> Plain(Value(env, w, e)) && a == Quote(Value(env, w, e)))
    && (levels > 0 ==> ShowsInside(env, w, e, a, seen, levels))
  }

  ghost predicate ShowsInside(env: Env, w: World, e: Expr, a: A, seen: set<string>, levels: nat)
    requires levels > 0
    decreases levels, 0
  {
    match e
    case Wrapped(inner) => Shows(env, w, inner, a, seen, levels - 1)
    case Ident(name) =>
      name !in env.mutated && name !in seen && name !in env.imports && name in env.bindings ==>
        Shows(env, w, env.bindings[name], a, seen + {name}, levels - 1)
    case ObjectLit(properties) =>
      WrittenOut(properties) ==>
        && a.Obj? && !a.open && a.fields.Keys == NamesOf(properties)
        && forall k :: 0 <= k < |properties| ==>
             Shows(env, w, properties[k].value, a.fields[properties[k].key.name], seen, levels - 1)
    case ArrayLit(elements) =>
      (forall k :: 0 <= k < |elements| ==> elements[k].Item?) ==>
        && a.Arr? && |a.items| == |elements|
        && forall k :: 0 <= k < |elements| ==> Shows(env, w, elements[k].e, a.items[k], seen, levels - 1)
    case Call(callee, arguments) =>
      DefinesConfig(env, callee, arguments) ==> Shows(env, w, arguments[0].e, a, seen, levels - 1)
    case _ => true
  }

  predicate DefinesConfig(env: Env, callee: string, arguments: seq<Element>) {
    && callee in env.imports && Recognized(env.imports[callee]) && callee !in env.mutated
    && env.imports[callee].imported == "defineConfig" && env.imports[callee].source != "eslint/config"
    && |arguments| == 1 && arguments[0].Item?
  }

  lemma {:induction false} EvalShows(env: Env, w: World, s0: EvalState, e: Expr, depth: nat)
    requires Consistent(env, w) && depth <= MAX_DEPTH && s0.nodes + Nodes(env, e, Fuel(depth)) <= MAX_NODES
    ensures Shows(env, w, e, Eval(env, s0, e, depth).0, s0.resolving, LevelsLeft(depth))
    decreases LevelsLeft(depth), 3, 0
  {
    hide Settled, Quote, Value, Eval, ShowsInside, Nodes, Plain;
    if Settled(env, w, e, s0.resolving, LevelsLeft(depth)) {
      NodesGrow(env, e, LevelsLeft(depth));
      EvalIsPrecise(env, w, s0, e, depth);
    }
    if depth < MAX_DEPTH {
      match e {
        case ObjectLit(_) => LiteralIsShown(env, w, s0, e, depth);
        case ArrayLit(_) => LiteralIsShown(env, w, s0, e, depth);
        case Call(_, _) => CallIsShown(env, w, s0, e, depth);
        case _ => InsideIsShown(env, w, s0, e, depth);
      }
    }
  }

  lemma {:induction false} InsideIsShown(env: Env, w: World, s0: EvalState, e: Expr, depth: nat)
    requires Consistent(env, w) && depth < MAX_DEPTH && s0.nodes + Nodes(env, e, Fuel(depth)) <= MAX_NODES
    requires !e.ObjectLit? && !e.ArrayLit? && !e.Call?
    ensures ShowsInside(env, w, e, Eval(env, s0, e, depth).0, s0.resolving, LevelsLeft(depth))
    decreases LevelsLeft(depth), 2, 0
  {
    hide Shows;
    var s := s0.(nodes := s0.nodes + 1);
    match e {
      case Wrapped(inner) => EvalShows(env, w, s, inner, depth + 1);
      case Ident(name) =>
        if name !in env.mutated && name !in s.resolving && name !in env.imports && name in env.bindings {
          EvalShows(env, w, s.(resolving := s.resolving + {name}), env.bindings[name], depth + 1);
        }
      case _ =>
    }
  }

  lemma {:induction false} LiteralIsShown(env: Env, w: World, s0: EvalState, e: Expr, depth: nat)
    requires Consistent(env, w) && depth < MAX_DEPTH && s0.nodes + Nodes(env, e, Fuel(depth)) <= MAX_NODES
    requires e.ObjectLit? || e.ArrayLit?
    ensures ShowsInside(env, w, e, Eval(env, s0, e, depth).0, s0.resolving, LevelsLeft(depth))
    decreases LevelsLeft(depth), 2, 0
  {
    hide Shows, EvalElements, EvalProperties, NodesOfElements, NodesOfProperties, NamesOf, WrittenOut;
    var s := s0.(nodes := s0.nodes + 1);
    if e.ObjectLit? {
      if WrittenOut(e.properties) {
        FieldsShow(env, w, s, e.properties, NOTHING, depth);
        FirstNames(e.properties);
      }
    } else if forall k :: 0 <= k < |e.elements| ==> e.elements[k].Item? {
      ItemsShow(env, w, s, e.elements, depth);
    }
  }

  lemma FirstNames(properties: seq<Property>)
    requires WrittenOut(properties)
    ensures forall k :: 0 <= k < |properties| ==> NamedField(properties[k])
  {
  }

  lemma OneArgument(env: Env, s: EvalState, e: Expr, depth: nat)
    requires depth <= MAX_DEPTH
    ensures EvalArguments(env, s, [Item(e)], depth) == ([Eval(env, s, e, depth + 1).0], Eval(env, s, e, depth + 1).1)
  {
    var arguments := [Item(e)];
    var (v, s1) := Eval(env, s, e, depth + 1);
    assert arguments[1..] == [] && EvalArguments(env, s1, [], depth) == ([], s1);
    assert [v] + [] == [v];
  }

  lemma {:induction false} CallIsShown(env: Env, w: World, s0: EvalState, e: Expr, depth: nat)
    requires Consistent(env, w) && depth < MAX_DEPTH && s0.nodes + Nodes(env, e, Fuel(depth)) <= MAX_NODES && e.Call?
    ensures ShowsInside(env, w, e, Eval(env, s0, e, depth).0, s0.resolving, LevelsLeft(depth))
    decreases LevelsLeft(depth), 2, 0
  {
    hide Shows, Merge, FlatA, Recognized, PluginSource, MergeArity;
    var s := s0.(nodes := s0.nodes + 1);
    if DefinesConfig(env, e.callee, e.arguments) {
      var argument := e.arguments[0];
      assert e.arguments == [argument] && e.arguments[1..] == [];
      assert NodesOfElements(env, e.arguments, Fuel(depth)) == Nodes(env, argument.e, Fuel(depth) - 1);
      EvalShows(env, w, s, argument.e, depth + 1);
      OneArgument(env, s, argument.e, depth);
    }
  }

  lemma {:induction false} ItemsShow(env: Env, w: World, s: EvalState, elements: seq<Element>, depth: nat)
    requires Consistent(env, w) && depth < MAX_DEPTH
    requires s.nodes + NodesOfElements(env, elements, Fuel(depth)) <= MAX_NODES
    requires forall k :: 0 <= k < |elements| ==> elements[k].Item?
    ensures var items := EvalElements(env, s, elements, depth).0;
      && |items| == |elements|
      && forall k :: 0 <= k < |elements| ==> Shows(env, w, elements[k].e, items[k], s.resolving, LevelsLeft(depth) - 1)
    decreases LevelsLeft(depth), 1, |elements|
  {
    hide Eval, Shows, Nodes;
    if elements == [] { return; }
    assert elements[0].Item?;
    EvalShows(env, w, s, elements[0].e, depth + 1);
    EvalIsBounded(env, s, elements[0].e, depth + 1);
    var (v, s1) := Eval(env, s, elements[0].e, depth + 1);
    var rest := elements[1..];
    assert EvalElement(env, s, elements[0], depth) == ([v], s1);
    ItemsShow(env, w, s1, rest, depth);
    var later := EvalElements(env, s1, rest, depth).0;
    var items := EvalElements(env, s, elements, depth).0;
    assert items == [v] + later;
    forall k | 0 <= k < |elements| ensures Shows(env, w, elements[k].e, items[k], s.resolving, LevelsLeft(depth) - 1) {
      if k > 0 { assert elements[k] == rest[k - 1] && items[k] == later[k - 1]; }
    }
  }

  lemma WrittenOutTail(properties: seq<Property>)
    requires properties != [] && WrittenOut(properties)
    ensures WrittenOut(properties[1..]) && properties[0].key.name !in NamesOf(properties[1..])
    ensures NamesOf(properties) == {properties[0].key.name} + NamesOf(properties[1..])
  {
    var rest := properties[1..];
    assert forall k :: 0 <= k < |rest| ==> rest[k] == properties[k + 1];
    assert NamedField(properties[0]);
  }

  lemma {:induction false} FieldsShow(env: Env, w: World, s: EvalState, properties: seq<Property>, b: Building,
      depth: nat)
    requires Consistent(env, w) && depth < MAX_DEPTH && WrittenOut(properties)
    requires s.nodes + NodesOfProperties(env, properties, Fuel(depth)) <= MAX_NODES
    ensures var end := EvalProperties(env, s, properties, b, depth).0;
      && end.open == b.open && end.fields.Keys == b.fields.Keys + NamesOf(properties)
      && (forall name :: name in b.fields && name !in NamesOf(properties) ==> end.fields[name] == b.fields[name])
      && forall k :: 0 <= k < |properties| ==>
           properties[k].key.name in end.fields
           && Shows(env, w, properties[k].value, end.fields[properties[k].key.name], s.resolving, LevelsLeft(depth) - 1)
    decreases LevelsLeft(depth), 1, |properties|
  {
    hide Eval, Shows, Nodes, WrittenOut, NamesOf;
    if properties == [] { NoNames(); return; }
    WrittenOutTail(properties);
    FirstNames(properties);
    assert NamedField(properties[0]);
    var name, value, rest := properties[0].key.name, properties[0].value, properties[1..];
    EvalShows(env, w, s, value, depth + 1);
    EvalIsBounded(env, s, value, depth + 1);
    var (v, s1) := Eval(env, s, value, depth + 1);
    assert EvalKey(env, s, properties[0].key, depth) == (Some(name), s);
    var (b', s') := EvalProperty(env, s, properties[0], b, depth);
    assert b'.open == b.open && b'.fields == b.fields[name := v] && s' == s1;
    FieldsShow(env, w, s1, rest, b', depth);
    var end := EvalProperties(env, s, properties, b, depth).0;
    forall k | 0 <= k < |properties|
      ensures properties[k].key.name in end.fields
        && Shows(env, w, properties[k].value, end.fields[properties[k].key.name], s.resolving, LevelsLeft(depth) - 1)
    {
      if k > 0 { assert properties[k] == rest[k - 1]; }
    }
  }

  lemma NoNames()
    ensures NamesOf([]) == {}
  {
  }

  // ----- what `clean` makes of it -----

  /** `Object.entries` lists every field once. */
  ghost predicate ListsOnce(order: FieldOrder) {
    forall fields: map<string, A> :: Once(order(fields))
  }

  predicate Once(keys: seq<string>) {
    forall i, j :: 0 <= i < j < |keys| ==> keys[i] != keys[j]
  }

  /** How many nodes `clean` visits. */
  function Weight(order: FieldOrder, a: A): nat
    decreases a, 1, 0
  {
    match a
    case Arr(items) => 1 + WeightOfItems(order, items)
    case Obj(fields, _) => 1 + WeightOfFields(order, a, order(fields))
    case _ => 1
  }

  function WeightOfItems(order: FieldOrder, items: seq<A>): nat
    decreases items, 0, 0
  {
    if items == [] then 0 else Weight(order, items[0]) + WeightOfItems(order, items[1..])
  }

  function WeightOfFields(order: FieldOrder, a: A, keys: seq<string>): nat
    requires a.Obj?
    decreases a, 0, |keys|
  {
    if keys == [] then 0
    else (if keys[0] in a.fields then Weight(order, a.fields[keys[0]]) else 0) + WeightOfFields(order, a, keys[1..])
  }

  predicate Nests(a: A, levels: nat) {
    match a
    case Arr(items) => forall x :: x in items ==> levels > 0 && Nests(x, levels - 1)
    case Obj(fields, _) => forall k :: k in fields ==> levels > 0 && Nests(fields[k], levels - 1)
    case _ => true
  }

  lemma {:induction false} CleanIsBounded(order: FieldOrder, a: A, path: Path, depth: nat, s0: CleanState)
    ensures Clean(order, a, path, depth, s0).1.nodes <= s0.nodes + Weight(order, a)
    decreases a, 1, 0
  {
    var s := s0.(nodes := s0.nodes + 1);
    if s.nodes > MAX_NODES || depth > MAX_DEPTH { return; }
    match a {
      case Arr(items) => CleanItemsAreBounded(order, items, path, 0, depth, s);
      case Obj(fields, open) =>
        CleanFieldsAreBounded(order, a, order(fields), path, depth, if open then Leave(s, path + [Rest]) else s);
      case _ =>
    }
  }

  lemma {:induction false} CleanItemsAreBounded(order: FieldOrder, items: seq<A>, path: Path, index: nat, depth: nat,
      s: CleanState)
    ensures CleanItems(order, items, path, index, depth, s).1.nodes <= s.nodes + WeightOfItems(order, items)
    decreases items, 0, 0
  {
    hide Clean, Weight;
    if items == [] { return; }
    CleanIsBounded(order, items[0], path + [At(index)], depth + 1, s);
    var s1 := Clean(order, items[0], path + [At(index)], depth + 1, s).1;
    CleanItemsAreBounded(order, items[1..], path, index + 1, depth, s1);
  }

  lemma {:induction false} CleanFieldsAreBounded(order: FieldOrder, a: A, keys: seq<string>, path: Path, depth: nat,
      s: CleanState)
    requires a.Obj?
    ensures CleanFields(order, a, keys, path, depth, s).1.nodes <= s.nodes + WeightOfFields(order, a, keys)
    decreases a, 0, |keys|
  {
    hide Clean, Weight;
    if keys == [] { return; }
    if keys[0] !in a.fields { CleanFieldsAreBounded(order, a, keys[1..], path, depth, s); return; }
    CleanIsBounded(order, a.fields[keys[0]], path + [Under(keys[0])], depth + 1, s);
    var s1 := Clean(order, a.fields[keys[0]], path + [Under(keys[0])], depth + 1, s).1;
    CleanFieldsAreBounded(order, a, keys[1..], path, depth, s1);
  }

  /** Where one field is cleaned, and that this is what is reported under its name. */
  lemma {:induction false} FieldIsCleaned(order: FieldOrder, a: A, keys: seq<string>, name: string, path: Path,
      depth: nat, s: CleanState)
      returns (path': Path, s': CleanState)
    requires a.Obj? && name in a.fields && name in keys && Once(keys)
    requires s.nodes + WeightOfFields(order, a, keys) <= MAX_NODES
    ensures s'.nodes + Weight(order, a.fields[name]) <= MAX_NODES
    ensures var (cleaned, child) := (CleanFields(order, a, keys, path, depth, s).0,
        Clean(order, a.fields[name], path', depth + 1, s').0);
      (if name in cleaned then Some(cleaned[name]) else None) == child
    decreases |keys|
  {
    hide Clean, Weight;
    var rest := keys[1..];
    assert forall i, j :: 0 <= i < j < |rest| ==> rest[i] == keys[i + 1] && rest[j] == keys[j + 1];
    if keys[0] == name {
      path', s' := path + [Under(name)], s;
      var s1 := Clean(order, a.fields[name], path', depth + 1, s).1;
      assert name !in rest by { forall i | 0 <= i < |rest| ensures rest[i] != name { assert rest[i] == keys[i + 1]; } }
      OnlyListed(order, a, rest, path, depth, s1);
    } else {
      assert name in rest by { var i :| 0 <= i < |keys| && keys[i] == name; assert rest[i - 1] == name; }
      if keys[0] in a.fields {
        CleanIsBounded(order, a.fields[keys[0]], path + [Under(keys[0])], depth + 1, s);
        var s1 := Clean(order, a.fields[keys[0]], path + [Under(keys[0])], depth + 1, s).1;
        path', s' := FieldIsCleaned(order, a, rest, name, path, depth, s1);
      } else {
        path', s' := FieldIsCleaned(order, a, rest, name, path, depth, s);
      }
    }
  }

  lemma {:induction false} OnlyListed(order: FieldOrder, a: A, keys: seq<string>, path: Path, depth: nat, s: CleanState)
    requires a.Obj?
    ensures forall k :: k in CleanFields(order, a, keys, path, depth, s).0 ==> k in keys
    decreases |keys|
  {
    hide Clean;
    if keys == [] { return; }
    if keys[0] !in a.fields { OnlyListed(order, a, keys[1..], path, depth, s); return; }
    OnlyListed(order, a, keys[1..], path, depth, Clean(order, a.fields[keys[0]], path + [Under(keys[0])], depth + 1, s).1);
  }

  // ----- the budgets of a quoted value -----

  lemma {:induction false} QuoteNests(v: V, levels: nat)
    requires Plain(v) && Nests(Quote(v), levels)
    ensures NestsWithin(v, levels)
    decreases v
  {
    match v {
      case VArr(items) =>
        QuoteOfItems(items);
        forall x | x in items ensures levels > 0 && NestsWithin(x, levels - 1) {
          var i :| 0 <= i < |items| && items[i] == x;
          assert Quotes(items)[i] in Quotes(items);
          QuoteNests(x, levels - 1);
        }
      case VObj(fields) =>
        forall k | k in fields ensures levels > 0 && NestsWithin(fields[k], levels - 1) {
          assert Quote(v).fields[k] == Quote(fields[k]);
          QuoteNests(fields[k], levels - 1);
        }
      case _ =>
    }
  }

  lemma {:induction false} QuoteWeighs(order: FieldOrder, v: V)
    requires Plain(v)
    ensures Visits(order, v) == Weight(order, Quote(v))
    decreases v, 1, 0
  {
    match v {
      case VArr(items) =>
        QuoteOfItems(items);
        QuotesWeigh(order, v, items);
      case VObj(fields) => QuoteFieldsWeigh(order, v, order(Quote(v).fields));
      case _ =>
    }
  }

  lemma {:induction false} QuotesWeigh(order: FieldOrder, whole: V, items: seq<V>)
    requires forall x :: x in items ==> x < whole && Plain(x)
    ensures VisitsOfItems(order, whole, items) == WeightOfItems(order, Quotes(items))
    decreases whole, 0, |items|
  {
    hide Visits, Weight, Plain;
    if items == [] { return; }
    assert items[0] in items && forall x :: x in items[1..] ==> x in items;
    assert Quotes(items)[1..] == Quotes(items[1..]);
    QuoteWeighs(order, items[0]);
    QuotesWeigh(order, whole, items[1..]);
  }

  lemma {:induction false} QuoteFieldsWeigh(order: FieldOrder, v: V, keys: seq<string>)
    requires v.VObj? && Plain(v) && Quote(v).Obj?
    ensures VisitsOfFields(order, v, keys) == WeightOfFields(order, Quote(v), keys)
    decreases v, 0, |keys|
  {
    hide Visits, Weight;
    if keys == [] { return; }
    if keys[0] in v.fields { QuoteWeighs(order, v.fields[keys[0]]); }
    QuoteFieldsWeigh(order, v, keys[1..]);
  }

  lemma {:induction false} QuoteIsReported(order: FieldOrder, v: V, path: Path, depth: nat, s: CleanState)
    requires Enumerates(order) && Plain(v) && depth <= MAX_DEPTH
    requires s.nodes + Weight(order, Quote(v)) <= MAX_NODES && Nests(Quote(v), LevelsLeft(depth))
    ensures Clean(order, Quote(v), path, depth, s).0 == Some(v)
  {
    hide Clean, Visits, Weight, NestsWithin, Nests, Quote, Plain;
    QuoteNests(v, LevelsLeft(depth));
    QuoteWeighs(order, v);
    CleanLeavesNothing(order, v, path, depth, s);
    QuoteMeansOnly(v, v);
    CleanIsWhole(order, Quote(v), path, depth, s, v);
  }

  // ----- the inspection reports the settled parts -----

  /** Every settled part of the export is reported: itself, or under its name in the object it stands in. */
  ghost predicate Reports(env: Env, w: World, e: Expr, v: Option<V>, seen: set<string>, levels: nat)
    decreases levels
  {
    && (Settled(env, w, e, seen, levels) ==> v == Some(Value(env, w, e)))
    && (levels > 0 ==>
          match e
          case Wrapped(inner) => Reports(env, w, inner, v, seen, levels - 1)
          case Ident(name) =>
            name !in env.mutated && name !in seen && name !in env.imports && name in env.bindings ==>
              Reports(env, w, env.bindings[name], v, seen + {name}, levels - 1)
          case ObjectLit(properties) =>
            WrittenOut(properties) ==>
              && v.Some? && v.value.VObj?
              && forall k :: 0 <= k < |properties| ==>
                   Reports(env, w, properties[k].value, FieldOf(v.value, properties[k].key.name), seen, levels - 1)
          case Call(callee, arguments) =>
            DefinesConfig(env, callee, arguments) ==> Reports(env, w, arguments[0].e, v, seen, levels - 1)
          case _ => true)
  }

  function FieldOf(v: V, name: string): Option<V>
    requires v.VObj?
  {
    if name in v.fields then Some(v.fields[name]) else None
  }

  lemma {:induction false} ShownIsReported(order: FieldOrder, env: Env, w: World, e: Expr, a: A, seen: set<string>,
      levels: nat, path: Path, depth: nat, s: CleanState)
    requires Enumerates(order) && ListsOnce(order) && Shows(env, w, e, a, seen, levels)
    requires depth <= MAX_DEPTH && s.nodes + Weight(order, a) <= MAX_NODES && Nests(a, LevelsLeft(depth))
    ensures Reports(env, w, e, Clean(order, a, path, depth, s).0, seen, levels)
    decreases levels, 1
  {
    hide Clean, Settled, Value, Weight, Nests, Quote, Plain, WrittenOut;
    var v := Clean(order, a, path, depth, s).0;
    if Settled(env, w, e, seen, levels) { QuoteIsReported(order, Value(env, w, e), path, depth, s); }
    if levels == 0 { return; }
    match e {
      case Wrapped(inner) => ShownIsReported(order, env, w, inner, a, seen, levels - 1, path, depth, s);
      case Ident(name) =>
        if name !in env.mutated && name !in seen && name !in env.imports && name in env.bindings {
          ShownIsReported(order, env, w, env.bindings[name], a, seen + {name}, levels - 1, path, depth, s);
        }
      case ObjectLit(properties) =>
        if WrittenOut(properties) {
          ShownFieldsAreReported(order, env, w, properties, a, seen, levels, path, depth, s);
        }
      case Call(callee, arguments) =>
        if DefinesConfig(env, callee, arguments) {
          ShownIsReported(order, env, w, arguments[0].e, a, seen, levels - 1, path, depth, s);
        }
      case _ =>
    }
  }

  lemma {:induction false} ShownFieldsAreReported(order: FieldOrder, env: Env, w: World, properties: seq<Property>,
      a: A, seen: set<string>, levels: nat, path: Path, depth: nat, s: CleanState)
    requires Enumerates(order) && ListsOnce(order) && levels > 0 && WrittenOut(properties)
    requires Shows(env, w, ObjectLit(properties), a, seen, levels)
    requires depth <= MAX_DEPTH && s.nodes + Weight(order, a) <= MAX_NODES && Nests(a, LevelsLeft(depth))
    ensures var v := Clean(order, a, path, depth, s).0;
      && v.Some? && v.value.VObj?
      && forall k :: 0 <= k < |properties| ==>
           Reports(env, w, properties[k].value, FieldOf(v.value, properties[k].key.name), seen, levels - 1)
    decreases levels, 0
  {
    hide Settled, Value, Weight, Quote, Plain, Shows, Reports, Clean, NamesOf, CleanFields, WeightOfFields;
    LiteralShows(env, w, properties, a, seen, levels);
    var s1 := s.(nodes := s.nodes + 1);
    var s2 := if a.open then Leave(s1, path + [Rest]) else s1;
    CleanOfObject(order, a, path, depth, s);
    var v := Clean(order, a, path, depth, s).0;
    forall k | 0 <= k < |properties|
      ensures Reports(env, w, properties[k].value, FieldOf(v.value, properties[k].key.name), seen, levels - 1)
    {
      var name := properties[k].key.name;
      assert name in order(a.fields) && Once(order(a.fields));
      var path', s' := FieldIsCleaned(order, a, order(a.fields), name, path, depth, s2);
      assert LevelsLeft(depth) > 0 && LevelsLeft(depth + 1) == LevelsLeft(depth) - 1 && Nests(a.fields[name],
        LevelsLeft(depth + 1));
      ShownIsReported(order, env, w, properties[k].value, a.fields[name], seen, levels - 1, path', depth + 1, s');
    }
  }

  /** What a literal that is written out shows. */
  lemma LiteralShows(env: Env, w: World, properties: seq<Property>, a: A, seen: set<string>, levels: nat)
    requires levels > 0 && WrittenOut(properties) && Shows(env, w, ObjectLit(properties), a, seen, levels)
    ensures a.Obj? && forall k :: 0 <= k < |properties| ==>
      NamedField(properties[k]) && properties[k].key.name in a.fields
      && Shows(env, w, properties[k].value, a.fields[properties[k].key.name], seen, levels - 1)
  {
    hide Settled, Value, Quote, Plain;
    forall k | 0 <= k < |properties| ensures properties[k].key.name in NamesOf(properties) {
      assert NamedField(properties[k]);
    }
  }

  lemma CleanOfObject(order: FieldOrder, a: A, path: Path, depth: nat, s: CleanState)
    requires a.Obj? && depth <= MAX_DEPTH && s.nodes + Weight(order, a) <= MAX_NODES
    ensures var s1 := s.(nodes := s.nodes + 1);
      var s2 := if a.open then Leave(s1, path + [Rest]) else s1;
      && s2.nodes + WeightOfFields(order, a, order(a.fields)) <= MAX_NODES
      && Clean(order, a, path, depth, s).0 == Some(VObj(CleanFields(order, a, order(a.fields), path, depth, s2).0))
  {
    hide CleanFields, WeightOfFields;
  }

  /** Whatever else the export holds, the inspection reports every settled part of it, within the budgets
      of the evaluator and of `clean`; a reported value that is neither object nor array is dropped. */
  lemma {:induction false} SettledPartsAreReported(order: FieldOrder, env: Env, w: World, exported: Expr)
    returns (v: Option<V>)
    requires Enumerates(order) && ListsOnce(order) && Consistent(env, w)
    requires Nodes(env, exported, MAX_DEPTH + 1) <= MAX_NODES
    requires var a := Eval(env, FRESH, exported, 0).0; Weight(order, a) <= MAX_NODES && Nests(a, MAX_DEPTH)
    ensures Reports(env, w, exported, v, {}, MAX_DEPTH)
    ensures Inspect(order, env, exported, false).0 == if v.Some? && (v.value.VObj? || v.value.VArr?) then v else None
  {
    hide Eval, Clean, Nodes, Weight, Nests, Reports, Shows, Consistent;
    EvalShows(env, w, FRESH, exported, 0);
    var a := Eval(env, FRESH, exported, 0).0;
    ShownIsReported(order, env, w, exported, a, {}, MAX_DEPTH, [], 0, CleanState(0, []));
    v := Clean(order, a, [], 0, CleanState(0, [])).0;
  }

  // ----- what is reported unresolved -----

  /** The description is unresolved at that path: unknown there, or an object that may have more fields. */
  predicate Unresolved(a: A, p: Path)
    decreases |p|
  {
    if p == [] then a.Unknown?
    else match p[0]
      case Rest => |p| == 1 && a.Obj? && a.open
      case At(i) => a.Arr? && i < |a.items| && Unresolved(a.items[i], p[1..])
      case Under(k) => a.Obj? && k in a.fields && Unresolved(a.fields[k], p[1..])
  }

  /** The path `q` leads from `path` to where `a` is unresolved. */
  predicate Points(a: A, path: Path, q: Path) {
    path <= q && Unresolved(a, q[|path|..])
  }

  lemma PointsInto(step: Step, a: A, path: Path, q: Path)
    ensures Points(a, path + [step], q) <==>
      path <= q && |q| > |path| && q[|path|] == step && Unresolved(a, q[|path|..][1..])
  {
    if path + [step] <= q {
      assert (path + [step])[|path|] == step && q[..|path|] == path;
      assert q[|path|..][1..] == q[|path + [step]|..];
    }
    if path <= q && |q| > |path| && q[|path|] == step {
      assert q[..|path| + 1] == path + [step];
      assert q[|path|..][1..] == q[|path + [step]|..];
    }
  }

  lemma LeaveAdds(s: CleanState, path: Path, q: Path)
    ensures q in Leave(s, path).unresolved <==> q in s.unresolved || q == path
  {
  }

  lemma PointsHere(a: A, path: Path, q: Path)
    requires !a.Arr? && !a.Obj?
    ensures Points(a, path, q) <==> a.Unknown? && q == path
  {
    if path <= q && q[|path|..] == [] { assert q == path; }
  }

  lemma {:induction false} CleanLeavesExactly(order: FieldOrder, a: A, path: Path, depth: nat, s0: CleanState, q: Path)
    requires Enumerates(order) && depth <= MAX_DEPTH && s0.nodes + Weight(order, a) <= MAX_NODES
    requires Nests(a, LevelsLeft(depth))
    ensures q in Clean(order, a, path, depth, s0).1.unresolved <==> q in s0.unresolved || Points(a, path, q)
    decreases a, 1, 0
  {
    hide Points;
    var s := s0.(nodes := s0.nodes + 1);
    match a {
      case Arr(items) =>
        ItemsLeaveExactly(order, items, path, 0, depth, s, q);
        PointsInArray(a, path, q);
      case Obj(fields, open) =>
        var s1 := if open then Leave(s, path + [Rest]) else s;
        LeaveAdds(s, path + [Rest], q);
        FieldsLeaveExactly(order, a, order(fields), path, depth, s1, q);
        PointsInObject(a, path, q);
      case _ =>
        LeaveAdds(s, path, q);
        PointsHere(a, path, q);
    }
  }

  lemma PointsInArray(a: A, path: Path, q: Path)
    requires a.Arr?
    ensures Points(a, path, q) <==>
      path <= q && |q| > |path| && q[|path|].At? && q[|path|].index < |a.items|
      && Unresolved(a.items[q[|path|].index], q[|path|..][1..])
  {
  }

  lemma PointsInObject(a: A, path: Path, q: Path)
    requires a.Obj?
    ensures Points(a, path, q) <==>
      || (a.open && q == path + [Rest])
      || (path <= q && |q| > |path| && q[|path|].Under? && q[|path|].key in a.fields
          && Unresolved(a.fields[q[|path|].key], q[|path|..][1..]))
  {
    if q == path + [Rest] { assert q[|path|..] == [Rest]; }
    if path <= q && q[|path|..] == [Rest] { assert q == path + [Rest]; }
    if path <= q && |q[|path|..]| == 1 && q[|path|..][0] == Rest { assert q[|path|..] == [Rest]; }
  }

  lemma {:induction false} ItemsLeaveExactly(order: FieldOrder, items: seq<A>, path: Path, index: nat, depth: nat,
      s: CleanState, q: Path)
    requires Enumerates(order) && depth <= MAX_DEPTH && s.nodes + WeightOfItems(order, items) <= MAX_NODES
    requires forall x :: x in items ==> LevelsLeft(depth) > 0 && Nests(x, LevelsLeft(depth) - 1)
    ensures q in CleanItems(order, items, path, index, depth, s).1.unresolved <==>
      q in s.unresolved
      || (path <= q && |q| > |path| && q[|path|].At? && index <= q[|path|].index < index + |items|
          && Unresolved(items[q[|path|].index - index], q[|path|..][1..]))
    decreases items, 0, 0
  {
    hide Clean, Weight, Nests, Points, Unresolved, Enumerates;
    if items == [] { return; }
    assert items[0] in items && forall x :: x in items[1..] ==> x in items;
    CleanIsBounded(order, items[0], path + [At(index)], depth + 1, s);
    var s1 := Clean(order, items[0], path + [At(index)], depth + 1, s).1;
    CleanLeavesExactly(order, items[0], path + [At(index)], depth + 1, s, q);
    PointsInto(At(index), items[0], path, q);
    ItemsLeaveExactly(order, items[1..], path, index + 1, depth, s1, q);
  }

  lemma {:induction false} FieldsLeaveExactly(order: FieldOrder, a: A, keys: seq<string>, path: Path, depth: nat,
      s: CleanState, q: Path)
    requires a.Obj? && Enumerates(order) && depth <= MAX_DEPTH && s.nodes + WeightOfFields(order, a, keys) <= MAX_NODES
    requires Nests(a, LevelsLeft(depth))
    ensures q in CleanFields(order, a, keys, path, depth, s).1.unresolved <==>
      q in s.unresolved
      || (path <= q && |q| > |path| && q[|path|].Under? && q[|path|].key in keys && q[|path|].key in a.fields
          && Unresolved(a.fields[q[|path|].key], q[|path|..][1..]))
    decreases a, 0, |keys|
  {
    hide Clean, Weight, Points, Unresolved, Enumerates;
    if keys == [] { return; }
    var key, rest := keys[0], keys[1..];
    assert forall k :: k in keys <==> k == key || k in rest;
    if key !in a.fields { FieldsLeaveExactly(order, a, rest, path, depth, s, q); return; }
    CleanIsBounded(order, a.fields[key], path + [Under(key)], depth + 1, s);
    var s1 := Clean(order, a.fields[key], path + [Under(key)], depth + 1, s).1;
    CleanLeavesExactly(order, a.fields[key], path + [Under(key)], depth + 1, s, q);
    PointsInto(Under(key), a.fields[key], path, q);
    FieldsLeaveExactly(order, a, rest, path, depth, s1, q);
  }

  /** Within the budgets of `clean` the inspection reports as unresolved exactly the places where the answer
      is unknown, or an object that may have more fields. */
  lemma {:induction false} UnresolvedIsWhereItSays(order: FieldOrder, env: Env, exported: Expr, q: Path)
    requires Enumerates(order)
    requires var a := Eval(env, FRESH, exported, 0).0; Weight(order, a) <= MAX_NODES && Nests(a, MAX_DEPTH)
    ensures q in Inspect(order, env, exported, false).1 <==> Unresolved(Eval(env, FRESH, exported, 0).0, q)
  {
    hide Eval, Clean, Weight, Nests, Enumerates, Unresolved;
    var a := Eval(env, FRESH, exported, 0).0;
    CleanLeavesExactly(order, a, [], 0, CleanState(0, []), q);
    assert q[0..] == q;
  }
}
