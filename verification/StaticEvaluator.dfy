/** The evaluator in the source's own form: counters, sets and the objects under construction are
    updated in place while recursion follows the expression, and a loop closes the set of mutated
    names over aliases. Proved against `StaticEvaluatorModel`, so its soundness carries over. */
module StaticEvaluator {
  import opened Text
  import opened StaticValues
  import opened StaticEvaluatorModel
  import opened StaticEvaluatorSafety
  import opened StaticPrecision
  import opened StaticPlugins

  /** `merge`: the result object starts as the left one and takes the right one's entries in turn. */
  method MergeValues(first: A, second: A, prefix: string) returns (merged: A)
    ensures merged == Merge(first, second, prefix)
    decreases second, 0
  {
    hide SpecialField;
    var left := first;
    if left == Unknown { left := Obj(map[], true); }
    if !left.Obj? || !second.Obj? { return Unknown; }
    var result := left.fields;
    var open := left.open;
    if second.open {
      result := map k | k in result :: Unknown;
      open := true;
    }
    ghost var base := result;
    var keys := second.fields.Keys;
    while keys != {}
      invariant keys <= second.fields.Keys
      invariant forall k :: k in keys ==> (k in result <==> k in base) && (k in base ==> result[k] == base[k])
      invariant forall k :: k in result <==> k in base || (k in second.fields && k !in keys && second.fields[k] != Known(Null))
      invariant forall k :: k in result && k !in keys ==>
        if k in second.fields && second.fields[k] != Known(Null)
        then result[k] == Override(OldA(left, second.open, k), second.fields[k], FieldPath(prefix, k))
        else k in base && result[k] == base[k]
      decreases keys
    {
      var key :| key in keys;
      keys := keys - {key};
      var value := second.fields[key];
      if value != Known(Null) {
        var prior := if key in result then Some(result[key]) else if left.open then Some(Unknown) else None;
        var field := if prefix != "" then prefix + "." + key else key;
        var entry := OverrideValue(prior, value, field);
        result := result[key := entry];
      }
    }
    merged := Obj(result, open);
    assert result == (Merge(first, second, prefix)).fields;
  }

  method OverrideValue(prior: Option<A>, value: A, field: string) returns (result: A)
    ensures result == Override(prior, value, field)
    decreases value, 1
  {
    hide SpecialField;
    if SpecialField(field) && prior != None { return Unknown; }
    if value == Unknown { return Unknown; }
    if prior == Some(Unknown) {
      if value.Obj? { result := MergeValues(Unknown, value, field); }
      else if value.Arr? { result := Arr([Unknown] + value.items); }
      else { result := value; }
    } else if prior.Some? && prior.value.Obj? && value.Obj? {
      result := MergeValues(prior.value, value, field);
    } else if (prior.Some? && prior.value.Arr?) || value.Arr? {
      if prior == None { return value; }
      result := Arr((if prior.value.Arr? then prior.value.items else [prior.value]) + (if value.Arr? then value.items else [value]));
    } else {
      result := value;
    }
  }

  class Evaluator {
    const env: Env
    var nodes: nat
    var resolving: set<string>
    var plugins: set<string>
    ghost var obligations: seq<Obligation>

    ghost function State(): EvalState
      reads this
    {
      EvalState(nodes, resolving, plugins, obligations)
    }

    constructor (env: Env)
      ensures this.env == env && State() == FRESH
    {
      this.env := env;
      nodes, resolving, plugins, obligations := 0, {}, {}, [];
    }

    method Evaluate(e: Expr, depth: nat) returns (value: A)
      modifies this
      ensures (value, State()) == Eval(env, old(State()), e, depth)
      decreases Fuel(depth), 3, 0
    {
      hide Merge, FlatA, Recognized, PluginSource;
      nodes := nodes + 1;
      if nodes > 10000 || depth > 64 { return Unknown; }
      match e {
        case Literal(p) => return Known(p);
        case Negated(n) => return Known(Num(-n));
        case Wrapped(inner) => value := Evaluate(inner, depth + 1);
        case Ident(name) => value := EvaluateName(name, depth);
        case Member(target, name) =>
          var v := Evaluate(target, depth + 1);
          return if v.Obj? && name in v.fields then v.fields[name] else Unknown;
        case Index(target, property) =>
          var v := Evaluate(target, depth + 1);
          var key := Evaluate(property, depth + 1);
          return if v.Obj? && key.Known? && key.p.Str? && key.p.s in v.fields then v.fields[key.p.s] else Unknown;
        case ArrayLit(elements) =>
          var items := EvaluateElements(elements, depth);
          return Arr(items);
        case ObjectLit(properties) => value := EvaluateProperties(properties, depth);
        case Call(callee, arguments) => value := EvaluateCall(callee, arguments, depth);
        case Unsupported(_) => return Unknown;
      }
    }

    method EvaluateName(name: string, depth: nat) returns (value: A)
      requires 0 < nodes <= MAX_NODES && depth <= MAX_DEPTH
      modifies this
      ensures (value, State()) == Eval(env, old(State()).(nodes := old(nodes) - 1), Ident(name), depth)
      decreases Fuel(depth), 2, 0
    {
      if name in env.mutated || name in resolving { return Unknown; }
      if name in env.imports { return env.imports[name].value; }
      if name !in env.bindings { return Unknown; }
      resolving := resolving + {name};
      value := Evaluate(env.bindings[name], depth + 1);
      resolving := resolving - {name};
    }

    /** The loop of an array literal. */
    method EvaluateElements(elements: seq<Element>, depth: nat) returns (items: seq<A>)
      requires depth <= MAX_DEPTH
      modifies this
      ensures (items, State()) == EvalElements(env, old(State()), elements, depth)
      decreases Fuel(depth), 2, 0
    {
      hide Eval, EvalElement;
      ghost var goal := EvalElements(env, State(), elements, depth);
      items := [];
      assert elements[0..] == elements && [] + goal.0 == goal.0;
      var i := 0;
      while i < |elements|
        invariant 0 <= i <= |elements|
        invariant items + EvalElements(env, State(), elements[i..], depth).0 == goal.0
        invariant EvalElements(env, State(), elements[i..], depth).1 == goal.1
      {
        assert elements[i..][0] == elements[i] && elements[i..][1..] == elements[i + 1..];
        ghost var before, rest := items, EvalElements(env, State(), elements[i..], depth).0;
        var head := EvaluateElement(elements[i], depth);
        items := items + head;
        ghost var tail := EvalElements(env, State(), elements[i + 1..], depth).0;
        assert rest == head + tail;
        assert items + tail == before + (head + tail);
        i := i + 1;
      }
      assert items + [] == items;
    }

    method EvaluateElement(element: Element, depth: nat) returns (items: seq<A>)
      requires depth <= MAX_DEPTH
      modifies this
      ensures (items, State()) == EvalElement(env, old(State()), element, depth)
      decreases Fuel(depth), 1, 0
    {
      hide Eval;
      match element {
        case Item(e) =>
          var v := Evaluate(e, depth + 1);
          items := [v];
        case Spread(e) =>
          var v := Evaluate(e, depth + 1);
          items := if v.Arr? then v.items else [Unknown];
        case Hole =>
          nodes := nodes + 1;
          items := [Unknown];
      }
    }

    method EvaluateArguments(arguments: seq<Element>, depth: nat) returns (values: seq<A>)
      requires depth <= MAX_DEPTH
      modifies this
      ensures (values, State()) == EvalArguments(env, old(State()), arguments, depth)
      decreases Fuel(depth), 1, 0
    {
      hide Eval;
      ghost var goal := EvalArguments(env, State(), arguments, depth);
      values := [];
      assert arguments[0..] == arguments && [] + goal.0 == goal.0;
      var i := 0;
      while i < |arguments|
        invariant 0 <= i <= |arguments|
        invariant values + EvalArguments(env, State(), arguments[i..], depth).0 == goal.0
        invariant EvalArguments(env, State(), arguments[i..], depth).1 == goal.1
      {
        assert arguments[i..][0] == arguments[i] && arguments[i..][1..] == arguments[i + 1..];
        ghost var before, rest := values, EvalArguments(env, State(), arguments[i..], depth).0;
        var v := Unknown;
        if arguments[i].Item? { v := Evaluate(arguments[i].e, depth + 1); } else { nodes := nodes + 1; }
        values := values + [v];
        ghost var tail := EvalArguments(env, State(), arguments[i + 1..], depth).0;
        assert rest == [v] + tail;
        assert values + tail == before + ([v] + tail);
        i := i + 1;
      }
      assert values + [] == values;
    }

    method EvaluateCall(callee: string, arguments: seq<Element>, depth: nat) returns (value: A)
      requires 0 < nodes <= MAX_NODES && depth <= MAX_DEPTH
      modifies this
      ensures (value, State()) == Eval(env, old(State()).(nodes := old(nodes) - 1), Call(callee, arguments), depth)
      decreases Fuel(depth), 2, 0
    {
      hide Merge, FlatA, Recognized, PluginSource, EvalArguments;
      if callee !in env.imports { return Unknown; }
      var i := env.imports[callee];
      if Recognized(i) && callee !in env.mutated {
        var values := EvaluateArguments(arguments, depth);
        if i.imported == "mergeConfig" {
          if 2 <= |values| <= 3 && (|values| == 2 || (values[2].Known? && values[2].p.Bool?)) {
            obligations := obligations + [Merging(values[0], values[1], arguments)];
            value := MergeValues(values[0], values[1], "");
            return;
          }
          return Unknown;
        }
        if i.source == "eslint/config" { return Arr(FlatA(values, 64)); }
        return if |values| == 1 then values[0] else Unknown;
      }
      if PluginSource(i.source) { plugins := plugins + {i.source}; }
      value := Unknown;
    }

    method EvaluateKey(key: Key, depth: nat) returns (name: Option<string>)
      requires depth <= MAX_DEPTH
      modifies this
      ensures (name, State()) == EvalKey(env, old(State()), key, depth)
      decreases Fuel(depth), 0, 0
    {
      match key {
        case Named(n) => return Some(n);
        case Numeric(_) => return None;
        case Computed(e) =>
          var v := Evaluate(e, depth + 1);
          return if v.Known? && v.p.Str? then Some(v.p.s) else None;
      }
    }

    /** The loop of an object literal; the object grows, or forgets what it knew. */
    method EvaluateProperties(properties: seq<Property>, depth: nat) returns (value: A)
      requires depth <= MAX_DEPTH
      modifies this
      ensures var (b, s) := EvalProperties(env, old(State()), properties, NOTHING, depth);
        value == Obj(b.fields, b.open) && State() == Finish(s, b, properties)
      decreases Fuel(depth), 2, 0
    {
      hide Eval, EvalProperty;
      ghost var goal := EvalProperties(env, State(), properties, NOTHING, depth);
      var fields: map<string, A> := map[];
      var open := false;
      ghost var phantom := false;
      var i := 0;
      while i < |properties|
        invariant 0 <= i <= |properties|
        invariant EvalProperties(env, State(), properties[i..], Building(fields, open, phantom), depth) == goal
      {
        assert properties[i..][0] == properties[i] && properties[i..][1..] == properties[i + 1..];
        fields, open, phantom := EvaluateProperty(properties[i], fields, open, phantom, depth);
        i := i + 1;
      }
      value := Obj(fields, open);
      if phantom { obligations := obligations + [Prototype(ReadField(value, "__proto__"), properties)]; }
    }

    method EvaluateProperty(property: Property, known: map<string, A>, wasOpen: bool, ghost wasPhantom: bool,
        depth: nat)
      returns (fields: map<string, A>, open: bool, ghost phantom: bool)
      requires depth <= MAX_DEPTH
      modifies this
      ensures (Building(fields, open, phantom), State()) == EvalProperty(env, old(State()), property,
        Building(known, wasOpen, wasPhantom), depth)
      decreases Fuel(depth), 1, 0
    {
      hide Eval, EvalKey;
      fields, open, phantom := known, wasOpen, wasPhantom;
      if property.SpreadIn? {
        var spread := Evaluate(property.e, depth + 1);
        if !spread.Obj? || spread.open {
          fields := map k | k in fields :: Unknown;
          open, phantom := true, false;
        }
        if spread.Obj? {
          fields := fields + spread.fields;
          phantom := phantom && "__proto__" !in spread.fields;
        }
        return;
      }
      var name := EvaluateKey(property.key, depth);
      if name == None {
        fields := map k | k in fields :: Unknown;
        open, phantom := true, false;
        return;
      }
      var v := Unknown;
      if property.Field? { v := Evaluate(property.value, depth + 1); }
      fields := fields[name.value := v];
      phantom := if SetsPrototype(property) then !v.Unknown? else phantom && name.value != "__proto__";
    }
  }

  /** `evaluate` on an exported expression: the answer covers the value of every run, and describes that
      value alone when the expression is settled. */
  method EvaluateExport(env: Env, e: Expr) returns (value: A, plugins: set<string>)
    ensures value == Eval(env, FRESH, e, 0).0 && plugins == Eval(env, FRESH, e, 0).1.plugins
    ensures forall w :: Consistent(env, w) && GuardsHold(env, w, Eval(env, FRESH, e, 0).1.obligations) ==>
      Means(value, Value(env, w, e))
    ensures forall w, v :: Consistent(env, w) && SettledExport(env, w, e) ==> (Means(value, v) <==> v == Value(env, w, e))
    ensures forall p :: p in plugins ==> PluginOf(env, p)
    ensures Nodes(env, e, MAX_DEPTH + 1) <= MAX_NODES ==> Records(env, e, plugins, {}, MAX_DEPTH)
  {
    hide Eval, Consistent, GuardsHold, Means, Value, SettledExport, PluginOf, Records, Nodes;
    PluginsAreThoseCalled(env, e);
    var evaluator := new Evaluator(env);
    value := evaluator.Evaluate(e, 0);
    plugins := evaluator.plugins;
    forall w | Consistent(env, w) && GuardsHold(env, w, Eval(env, FRESH, e, 0).1.obligations)
      ensures Means(value, Value(env, w, e))
    {
      EvalIsSound(env, w, FRESH, e, 0);
    }
    forall w, v | Consistent(env, w) && SettledExport(env, w, e)
      ensures Means(value, v) <==> v == Value(env, w, e)
    {
      SettledIsAnsweredExactly(env, w, e, v);
    }
  }

  // ----- the names that mutation may reach -----

  /** The bindings in order, each with the names its initializer mentions. */
  type Mentions = seq<(string, set<string>)>

  predicate Tracked(mentions: Mentions, imports: set<string>, name: string) {
    name in imports || exists i :: 0 <= i < |mentions| && mentions[i].0 == name
  }

  /** Mutating either side of an alias mutates both. */
  predicate ClosedUnderAliases(mentions: Mentions, imports: set<string>, mutated: set<string>) {
    forall i :: 0 <= i < |mentions| ==>
      if mentions[i].0 in mutated
      then forall ref :: ref in mentions[i].1 && Tracked(mentions, imports, ref) ==> ref in mutated
      else mentions[i].1 * mutated == {}
  }

  function Universe(mentions: Mentions): set<string> {
    if mentions == [] then {} else {mentions[0].0} + mentions[0].1 + Universe(mentions[1..])
  }

  lemma UniverseHolds(mentions: Mentions, i: nat)
    requires i < |mentions|
    ensures mentions[i].0 in Universe(mentions) && mentions[i].1 <= Universe(mentions)
  {
    if i > 0 { UniverseHolds(mentions[1..], i - 1); }
  }

  /** The fixpoint loop: it terminates, and what it returns is the least set that contains the
      directly mutated names and is closed under aliases. */
  method CloseMutations(mentions: Mentions, imports: set<string>, direct: set<string>) returns (mutated: set<string>)
    ensures direct <= mutated && ClosedUnderAliases(mentions, imports, mutated)
    ensures forall other :: direct <= other && ClosedUnderAliases(mentions, imports, other) ==> mutated <= other
  {
    mutated := direct;
    var changed := true;
    while changed
      invariant direct <= mutated <= direct + Universe(mentions)
      invariant !changed ==> ClosedUnderAliases(mentions, imports, mutated)
      invariant forall other :: direct <= other && ClosedUnderAliases(mentions, imports, other) ==> mutated <= other
      decreases (direct + Universe(mentions)) - mutated, changed
    {
      changed := false;
      ghost var before := mutated;
      var i := 0;
      while i < |mentions|
        invariant 0 <= i <= |mentions|
        invariant before <= mutated && (changed <==> before != mutated) && mutated <= direct + Universe(mentions)
        invariant !changed ==> forall k :: 0 <= k < i ==>
          if mentions[k].0 in mutated
          then forall ref :: ref in mentions[k].1 && Tracked(mentions, imports, ref) ==> ref in mutated
          else mentions[k].1 * mutated == {}
        invariant forall other :: direct <= other && ClosedUnderAliases(mentions, imports, other) ==> mutated <= other
      {
        UniverseHolds(mentions, i);
        var name, refs := mentions[i].0, mentions[i].1;
        if name in mutated {
          var fresher := set ref | ref in refs && Tracked(mentions, imports, ref) && ref !in mutated;
          assert forall ref :: ref in refs && Tracked(mentions, imports, ref) && ref !in mutated ==> ref in fresher;
          if fresher != {} {
            mutated := mutated + fresher;
            changed := true;
          }
        } else if refs * mutated != {} {
          mutated := mutated + {name};
          changed := true;
        }
        i := i + 1;
      }
    }
  }
}
