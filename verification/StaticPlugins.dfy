/** The configured plugins: the evaluator records exactly sources of imports it met as calls, forgets
    none, and misses none in what it looks into. */
module StaticPlugins {
  import opened Text
  import opened StaticValues
  import opened StaticEvaluatorModel
  import opened StaticEvaluatorSafety
  import opened StaticPrecision
  import opened StaticParts

  /** A call of this name is the call of an imported plugin. */
  predicate PlugsIn(env: Env, callee: string) {
    && callee in env.imports && PluginSource(env.imports[callee].source)
    && !(Recognized(env.imports[callee]) && callee !in env.mutated)
  }

  predicate PluginOf(env: Env, source: string) {
    exists callee :: callee in env.imports && PlugsIn(env, callee) && env.imports[callee].source == source
  }

  /** Nothing is forgotten, and only plugins are added. */
  predicate OnlyPluginsAdded(env: Env, before: set<string>, after: set<string>) {
    before <= after && forall p :: p in after ==> p in before || PluginOf(env, p)
  }

  // ----- nothing is forgotten, and only plugins are added -----

  lemma {:induction false} EvalAddsPlugins(env: Env, s0: EvalState, e: Expr, depth: nat)
    ensures OnlyPluginsAdded(env, s0.plugins, Eval(env, s0, e, depth).1.plugins)
    decreases Fuel(depth), 2, 0
  {
    hide Merge, FlatA, Recognized, PluginSource, MergeArity, EvalElements, EvalArguments, EvalProperties, PluginOf;
    var s := s0.(nodes := s0.nodes + 1);
    if s.nodes > MAX_NODES || depth > MAX_DEPTH { return; }
    match e {
      case Wrapped(inner) => EvalAddsPlugins(env, s, inner, depth + 1);
      case Ident(name) =>
        if name !in env.mutated && name !in s.resolving && name !in env.imports && name in env.bindings {
          EvalAddsPlugins(env, s.(resolving := s.resolving + {name}), env.bindings[name], depth + 1);
        }
      case Member(target, _) => EvalAddsPlugins(env, s, target, depth + 1);
      case Index(target, property) =>
        EvalAddsPlugins(env, s, target, depth + 1);
        EvalAddsPlugins(env, Eval(env, s, target, depth + 1).1, property, depth + 1);
      case ArrayLit(elements) => ElementsAddPlugins(env, s, elements, depth);
      case ObjectLit(properties) => PropertiesAddPlugins(env, s, properties, NOTHING, depth);
      case Call(callee, arguments) =>
        ArgumentsAddPlugins(env, s, arguments, depth);
        if PlugsIn(env, callee) { CallIsPlugin(env, callee); }
      case _ =>
    }
  }

  lemma CallIsPlugin(env: Env, callee: string)
    requires PlugsIn(env, callee)
    ensures PluginOf(env, env.imports[callee].source)
  {
    hide PluginSource, Recognized;
  }

  lemma {:induction false} ElementsAddPlugins(env: Env, s: EvalState, elements: seq<Element>, depth: nat)
    requires depth <= MAX_DEPTH
    ensures OnlyPluginsAdded(env, s.plugins, EvalElements(env, s, elements, depth).1.plugins)
    decreases Fuel(depth), 1, |elements|
  {
    hide Eval, PluginOf;
    if elements == [] { return; }
    if !elements[0].Hole? { EvalAddsPlugins(env, s, elements[0].e, depth + 1); }
    ElementsAddPlugins(env, EvalElement(env, s, elements[0], depth).1, elements[1..], depth);
  }

  lemma {:induction false} ArgumentsAddPlugins(env: Env, s: EvalState, arguments: seq<Element>, depth: nat)
    requires depth <= MAX_DEPTH
    ensures OnlyPluginsAdded(env, s.plugins, EvalArguments(env, s, arguments, depth).1.plugins)
    decreases Fuel(depth), 1, |arguments|
  {
    hide Eval, PluginOf;
    if arguments == [] { return; }
    if arguments[0].Item? { EvalAddsPlugins(env, s, arguments[0].e, depth + 1); }
    var s1 := if arguments[0].Item? then Eval(env, s, arguments[0].e, depth + 1).1 else s.(nodes := s.nodes + 1);
    ArgumentsAddPlugins(env, s1, arguments[1..], depth);
  }

  lemma {:induction false} PropertyAddsPlugins(env: Env, s: EvalState, property: Property, b: Building, depth: nat)
    requires depth <= MAX_DEPTH
    ensures OnlyPluginsAdded(env, s.plugins, EvalProperty(env, s, property, b, depth).1.plugins)
    decreases Fuel(depth), 0, 1
  {
    hide Eval, PluginOf;
    match property {
      case SpreadIn(e) => EvalAddsPlugins(env, s, e, depth + 1);
      case Field(key, value, _) =>
        if key.Computed? { EvalAddsPlugins(env, s, key.e, depth + 1); }
        EvalAddsPlugins(env, EvalKey(env, s, key, depth).1, value, depth + 1);
      case Method(key) => if key.Computed? { EvalAddsPlugins(env, s, key.e, depth + 1); }
    }
  }

  lemma {:induction false} PropertiesAddPlugins(env: Env, s: EvalState, properties: seq<Property>, b: Building,
      depth: nat)
    requires depth <= MAX_DEPTH
    ensures OnlyPluginsAdded(env, s.plugins, EvalProperties(env, s, properties, b, depth).1.plugins)
    decreases Fuel(depth), 1, |properties|
  {
    hide EvalProperty, PluginOf;
    if properties == [] { return; }
    PropertyAddsPlugins(env, s, properties[0], b, depth);
    var (b', s') := EvalProperty(env, s, properties[0], b, depth);
    PropertiesAddPlugins(env, s', properties[1..], b', depth);
  }

  // ----- none is missed -----

  /** Every plugin called in `e` is among them, as deep as the evaluator looks: into wrappers, accesses,
      bound names, elements, spreads, the values of named fields, and the arguments of recognised calls. */
  ghost predicate Records(env: Env, e: Expr, plugins: set<string>, seen: set<string>, levels: nat)
    decreases levels, 1
  {
    && (e.Call? && PlugsIn(env, e.callee) ==> env.imports[e.callee].source in plugins)
    && (levels > 0 ==> RecordsInside(env, e, plugins, seen, levels))
  }

  ghost predicate RecordsInside(env: Env, e: Expr, plugins: set<string>, seen: set<string>, levels: nat)
    requires levels > 0
    decreases levels, 0
  {
    match e
    case Wrapped(inner) => Records(env, inner, plugins, seen, levels - 1)
    case Member(target, _) => Records(env, target, plugins, seen, levels - 1)
    case Index(target, property) =>
      Records(env, target, plugins, seen, levels - 1) && Records(env, property, plugins, seen, levels - 1)
    case Ident(name) =>
      name !in env.mutated && name !in seen && name !in env.imports && name in env.bindings ==>
        Records(env, env.bindings[name], plugins, seen + {name}, levels - 1)
    case ArrayLit(elements) =>
      forall k :: 0 <= k < |elements| && !elements[k].Hole? ==> Records(env, elements[k].e, plugins, seen, levels - 1)
    case ObjectLit(properties) =>
      forall k :: 0 <= k < |properties| && HasValue(properties[k]) ==>
        Records(env, ValueOf(properties[k]), plugins, seen, levels - 1)
    case Call(callee, arguments) =>
      callee in env.imports && Recognized(env.imports[callee]) && callee !in env.mutated ==>
        forall k :: 0 <= k < |arguments| && arguments[k].Item? ==>
           Records(env, arguments[k].e, plugins, seen, levels - 1)
    case _ => true
  }

  predicate HasValue(property: Property) {
    property.SpreadIn? || (property.Field? && property.key.Named?)
  }

  function ValueOf(property: Property): Expr
    requires HasValue(property)
  {
    if property.SpreadIn? then property.e else property.value
  }

  lemma {:induction false} RecordsMore(env: Env, e: Expr, plugins: set<string>, more: set<string>, seen: set<string>,
      levels: nat)
    requires Records(env, e, plugins, seen, levels) && plugins <= more
    ensures Records(env, e, more, seen, levels)
    decreases levels
  {
    hide PlugsIn, Recognized;
    if levels == 0 { return; }
    match e {
      case Wrapped(inner) => RecordsMore(env, inner, plugins, more, seen, levels - 1);
      case Member(target, _) => RecordsMore(env, target, plugins, more, seen, levels - 1);
      case Index(target, property) =>
        RecordsMore(env, target, plugins, more, seen, levels - 1);
        RecordsMore(env, property, plugins, more, seen, levels - 1);
      case Ident(name) =>
        if name !in env.mutated && name !in seen && name !in env.imports && name in env.bindings {
          RecordsMore(env, env.bindings[name], plugins, more, seen + {name}, levels - 1);
        }
      case ArrayLit(elements) =>
        forall k | 0 <= k < |elements| && !elements[k].Hole?
          ensures Records(env, elements[k].e, more, seen, levels - 1)
        {
          RecordsMore(env, elements[k].e, plugins, more, seen, levels - 1);
        }
      case ObjectLit(properties) =>
        forall k | 0 <= k < |properties| && HasValue(properties[k])
          ensures Records(env, ValueOf(properties[k]), more, seen, levels - 1)
        {
          RecordsMore(env, ValueOf(properties[k]), plugins, more, seen, levels - 1);
        }
      case Call(callee, arguments) =>
        if callee in env.imports && Recognized(env.imports[callee]) && callee !in env.mutated {
          forall k | 0 <= k < |arguments| && arguments[k].Item?
            ensures Records(env, arguments[k].e, more, seen, levels - 1)
          {
            RecordsMore(env, arguments[k].e, plugins, more, seen, levels - 1);
          }
        }
      case _ =>
    }
  }

  lemma {:induction false} EvalRecords(env: Env, s0: EvalState, e: Expr, depth: nat)
    requires depth <= MAX_DEPTH && s0.nodes + Nodes(env, e, Fuel(depth)) <= MAX_NODES
    ensures Records(env, e, Eval(env, s0, e, depth).1.plugins, s0.resolving, LevelsLeft(depth))
    decreases LevelsLeft(depth), 3, 0
  {
    hide Merge, FlatA, PluginSource, MergeArity, Records, EvalElements, EvalArguments, EvalProperties;
    CallRecords(env, s0, e, depth);
    if depth < MAX_DEPTH { InsideRecords(env, s0, e, depth); }
    RecordsBoth(env, e, Eval(env, s0, e, depth).1.plugins, s0.resolving, LevelsLeft(depth));
  }

  lemma RecordsBoth(env: Env, e: Expr, plugins: set<string>, seen: set<string>, levels: nat)
    requires e.Call? && PlugsIn(env, e.callee) ==> env.imports[e.callee].source in plugins
    requires levels > 0 ==> RecordsInside(env, e, plugins, seen, levels)
    ensures Records(env, e, plugins, seen, levels)
  {
  }

  lemma CallRecords(env: Env, s0: EvalState, e: Expr, depth: nat)
    requires depth <= MAX_DEPTH && s0.nodes < MAX_NODES
    ensures e.Call? && PlugsIn(env, e.callee) ==> env.imports[e.callee].source in Eval(env, s0, e, depth).1.plugins
  {
    hide Merge, FlatA, PluginSource, MergeArity, Recognized, EvalArguments;
  }

  lemma {:induction false} InsideRecords(env: Env, s0: EvalState, e: Expr, depth: nat)
    requires depth < MAX_DEPTH && s0.nodes + Nodes(env, e, Fuel(depth)) <= MAX_NODES
    ensures RecordsInside(env, e, Eval(env, s0, e, depth).1.plugins, s0.resolving, LevelsLeft(depth))
    decreases LevelsLeft(depth), 2, 0
  {
    hide Merge, FlatA, PluginSource, MergeArity, Records, EvalElements, EvalArguments, EvalProperties;
    var s := s0.(nodes := s0.nodes + 1);
    match e {
      case Wrapped(inner) => EvalRecords(env, s, inner, depth + 1);
      case Member(target, _) => EvalRecords(env, s, target, depth + 1);
      case Index(target, property) => PairRecords(env, s, target, property, depth);
      case Ident(name) =>
        if name !in env.mutated && name !in s.resolving && name !in env.imports && name in env.bindings {
          EvalRecords(env, s.(resolving := s.resolving + {name}), env.bindings[name], depth + 1);
        }
      case ArrayLit(elements) => ElementsRecord(env, s, elements, depth);
      case ObjectLit(properties) => PropertiesRecord(env, s, properties, NOTHING, depth);
      case Call(callee, arguments) => ArgumentsRecord(env, s, arguments, depth);
      case _ =>
    }
  }

  lemma {:induction false} PairRecords(env: Env, s: EvalState, target: Expr, property: Expr, depth: nat)
    requires depth < MAX_DEPTH
    requires s.nodes + Nodes(env, target, Fuel(depth) - 1) + Nodes(env, property, Fuel(depth) - 1) <= MAX_NODES
    ensures var s1 := Eval(env, s, target, depth + 1).1;
      var end := Eval(env, s1, property, depth + 1).1.plugins;
      && Records(env, target, end, s.resolving, LevelsLeft(depth) - 1)
      && Records(env, property, end, s.resolving, LevelsLeft(depth) - 1)
    decreases LevelsLeft(depth), 1, 0
  {
    hide Eval, Records, Nodes, PluginOf;
    var s1 := Eval(env, s, target, depth + 1).1;
    EvalRecords(env, s, target, depth + 1);
    EvalIsBounded(env, s, target, depth + 1);
    EvalRecords(env, s1, property, depth + 1);
    EvalAddsPlugins(env, s1, property, depth + 1);
    RecordsMore(env, target, s1.plugins, Eval(env, s1, property, depth + 1).1.plugins, s.resolving,
      LevelsLeft(depth) - 1);
  }

  lemma {:induction false} ElementsRecord(env: Env, s: EvalState, elements: seq<Element>, depth: nat)
    requires depth < MAX_DEPTH && s.nodes + NodesOfElements(env, elements, Fuel(depth)) <= MAX_NODES
    ensures var end := EvalElements(env, s, elements, depth).1.plugins;
      forall k :: 0 <= k < |elements| && !elements[k].Hole? ==>
        Records(env, elements[k].e, end, s.resolving, LevelsLeft(depth) - 1)
    decreases LevelsLeft(depth), 1, |elements|
  {
    hide Eval, Records, Nodes, PluginOf;
    if elements == [] { return; }
    var first, rest := elements[0], elements[1..];
    var s1 := EvalElement(env, s, first, depth).1;
    if !first.Hole? {
      EvalRecords(env, s, first.e, depth + 1);
      EvalIsBounded(env, s, first.e, depth + 1);
    }
    ElementsRecord(env, s1, rest, depth);
    ElementsAddPlugins(env, s1, rest, depth);
    var end := EvalElements(env, s, elements, depth).1.plugins;
    assert end == EvalElements(env, s1, rest, depth).1.plugins;
    forall k | 0 <= k < |elements| && !elements[k].Hole?
      ensures Records(env, elements[k].e, end, s.resolving, LevelsLeft(depth) - 1)
    {
      if k == 0 { RecordsMore(env, first.e, s1.plugins, end, s.resolving, LevelsLeft(depth) - 1); }
      else { assert elements[k] == rest[k - 1]; }
    }
  }

  lemma {:induction false} ArgumentsRecord(env: Env, s: EvalState, arguments: seq<Element>, depth: nat)
    requires depth < MAX_DEPTH && s.nodes + NodesOfElements(env, arguments, Fuel(depth)) <= MAX_NODES
    ensures var end := EvalArguments(env, s, arguments, depth).1.plugins;
      forall k :: 0 <= k < |arguments| && arguments[k].Item? ==>
        Records(env, arguments[k].e, end, s.resolving, LevelsLeft(depth) - 1)
    decreases LevelsLeft(depth), 1, |arguments|
  {
    hide Eval, Records, PluginOf;
    if arguments == [] { return; }
    var first, rest := arguments[0], arguments[1..];
    var s1 := if first.Item? then Eval(env, s, first.e, depth + 1).1 else s.(nodes := s.nodes + 1);
    if first.Item? {
      EvalRecords(env, s, first.e, depth + 1);
      EvalIsBounded(env, s, first.e, depth + 1);
    }
    ArgumentsRecord(env, s1, rest, depth);
    ArgumentsAddPlugins(env, s1, rest, depth);
    var end := EvalArguments(env, s, arguments, depth).1.plugins;
    assert end == EvalArguments(env, s1, rest, depth).1.plugins;
    forall k | 0 <= k < |arguments| && arguments[k].Item?
      ensures Records(env, arguments[k].e, end, s.resolving, LevelsLeft(depth) - 1)
    {
      if k == 0 { RecordsMore(env, first.e, s1.plugins, end, s.resolving, LevelsLeft(depth) - 1); }
      else { assert arguments[k] == rest[k - 1]; }
    }
  }

  lemma {:induction false} PropertyRecords(env: Env, s: EvalState, property: Property, b: Building, depth: nat)
    requires depth < MAX_DEPTH && s.nodes + NodesOfProperty(env, property, Fuel(depth)) <= MAX_NODES
    ensures HasValue(property) ==>
      Records(env, ValueOf(property), EvalProperty(env, s, property, b, depth).1.plugins, s.resolving,
        LevelsLeft(depth) - 1)
    decreases LevelsLeft(depth), 1, 0
  {
    hide Eval, Records, Nodes;
    if HasValue(property) {
      EvalRecords(env, s, ValueOf(property), depth + 1);
      if property.Field? { assert EvalKey(env, s, property.key, depth) == (Some(property.key.name), s); }
    }
  }

  lemma {:induction false} PropertiesRecord(env: Env, s: EvalState, properties: seq<Property>, b: Building, depth: nat)
    requires depth < MAX_DEPTH && s.nodes + NodesOfProperties(env, properties, Fuel(depth)) <= MAX_NODES
    ensures var end := EvalProperties(env, s, properties, b, depth).1.plugins;
      forall k :: 0 <= k < |properties| && HasValue(properties[k]) ==>
        Records(env, ValueOf(properties[k]), end, s.resolving, LevelsLeft(depth) - 1)
    decreases LevelsLeft(depth), 1, |properties| + 1
  {
    hide EvalProperty, NodesOfProperty, Records, PluginOf, HasValue, ValueOf;
    if properties == [] { return; }
    var first, rest := properties[0], properties[1..];
    var (b', s1) := EvalProperty(env, s, first, b, depth);
    PropertyRecords(env, s, first, b, depth);
    PropertyIsBounded(env, s, first, b, depth);
    PropertiesRecord(env, s1, rest, b', depth);
    PropertiesAddPlugins(env, s1, rest, b', depth);
    var end := EvalProperties(env, s, properties, b, depth).1.plugins;
    assert end == EvalProperties(env, s1, rest, b', depth).1.plugins;
    forall k | 0 <= k < |properties| && HasValue(properties[k])
      ensures Records(env, ValueOf(properties[k]), end, s.resolving, LevelsLeft(depth) - 1)
    {
      if k == 0 { RecordsMore(env, ValueOf(first), s1.plugins, end, s.resolving, LevelsLeft(depth) - 1); }
      else { assert properties[k] == rest[k - 1]; }
    }
  }

  /** The configured plugins of an export: only sources of plugins that the module imports and does not
      recognise as configuration helpers, and, within the node budget, every one whose call the evaluator
      comes by. */
  lemma {:induction false} PluginsAreThoseCalled(env: Env, exported: Expr)
    ensures forall p :: p in Eval(env, FRESH, exported, 0).1.plugins ==> PluginOf(env, p)
    ensures Nodes(env, exported, MAX_DEPTH + 1) <= MAX_NODES ==>
      Records(env, exported, Eval(env, FRESH, exported, 0).1.plugins, {}, MAX_DEPTH)
  {
    hide Eval, Records, Nodes, PluginOf;
    EvalAddsPlugins(env, FRESH, exported, 0);
    if Nodes(env, exported, MAX_DEPTH + 1) <= MAX_NODES { EvalRecords(env, FRESH, exported, 0); }
  }
}
