/** The static evaluator over-approximates: whatever the unresolved parts turn out to be in a run,
    the run's value lies in the meaning of the evaluator's answer. */
module StaticEvaluatorSafety {
  import opened Text
  import opened StaticValues
  import opened StaticEvaluatorModel

  // ----- the hypotheses -----

  /** In this run every binding the evaluator trusts is what its initializer says, and every import
      lies in the meaning computed for its module. */
  ghost predicate Consistent(env: Env, w: World) {
    && (forall name :: name in env.bindings && name !in env.mutated && name !in env.imports ==>
          w.binding(name) == Value(env, w, env.bindings[name]))
    && (forall name :: name in env.imports && name !in env.mutated ==> Means(env.imports[name].value, w.binding(name)))
  }

  /** The first argument is one value of the call, so the second one is the second value. */
  predicate Aligned(env: Env, w: World, arguments: seq<Element>) {
    arguments != [] && |ValueElement(env, w, arguments[0])| == 1
  }

  /** A merge: the run merges two objects, and either they are what the arguments say and no array is
      lost to what the evaluator does not know, or the right side tells nothing anyway. A literal: the
      run's object has a field `__proto__` after all, as the evaluator describes it. */
  ghost predicate GuardHolds(env: Env, w: World, o: Obligation) {
    match o
    case Merging(left, right, arguments) =>
      var values := ValueElements(env, w, arguments);
      Left(left).Obj? && right.Obj? ==>
        && |values| >= 2 && values[0].VObj?
        && (if Aligned(env, w, arguments) then values[1].VObj? ==> Guard(left, right, values[0], values[1], "")
            else values[1].VObj? && Blank(right))
    case Prototype(answer, properties) => HasField(ValueProperties(env, w, properties, map[]), answer)
  }

  /** The run's object has a field `__proto__` of its own that the answer describes. */
  ghost predicate HasField(run: map<string, V>, answer: A) {
    "__proto__" in run && Means(answer, run["__proto__"])
  }

  ghost predicate GuardsHold(env: Env, w: World, obligations: seq<Obligation>) {
    forall o :: o in obligations ==> GuardHolds(env, w, o)
  }

  lemma GuardsOfPrefix(env: Env, w: World, some: seq<Obligation>, all: seq<Obligation>)
    requires some <= all && GuardsHold(env, w, all)
    ensures GuardsHold(env, w, some)
  {
    hide GuardHolds;
    forall o | o in some ensures o in all {
      var i :| 0 <= i < |some| && some[i] == o;
      assert all[i] == o;
    }
  }

  // ----- soundness -----

  lemma {:induction false} EvalIsSound(env: Env, w: World, s0: EvalState, e: Expr, depth: nat)
    requires Consistent(env, w) && GuardsHold(env, w, Eval(env, s0, e, depth).1.obligations)
    ensures Means(Eval(env, s0, e, depth).0, Value(env, w, e))
    decreases Fuel(depth), 2, 0
  {
    hide GuardHolds, Merge, MergeV, Run, FlatA, FlatV, Recognized, PluginSource;
    var s := s0.(nodes := s0.nodes + 1);
    if s.nodes > MAX_NODES || depth > MAX_DEPTH { return; }
    match e {
      case Wrapped(inner) => EvalIsSound(env, w, s, inner, depth + 1);
      case Ident(name) =>
        if name !in env.mutated && name !in s.resolving && name !in env.imports && name in env.bindings {
          EvalIsSound(env, w, s.(resolving := s.resolving + {name}), env.bindings[name], depth + 1);
        }
      case Member(target, name) =>
        EvalIsSound(env, w, s, target, depth + 1);
        FieldIsSound(w, Eval(env, s, target, depth + 1).0, Value(env, w, target), name);
      case Index(target, property) => IndexIsSound(env, w, s, target, property, depth);
      case ArrayLit(elements) => ElementsAreSound(env, w, s, elements, depth);
      case ObjectLit(properties) => LiteralIsSound(env, w, s, properties, depth);
      case Call(callee, arguments) =>
        if callee in env.imports && Recognized(env.imports[callee]) && callee !in env.mutated {
          CallIsSound(env, w, s, callee, arguments, depth);
        }
      case _ =>
    }
  }

  lemma {:induction false} IndexIsSound(env: Env, w: World, s: EvalState, target: Expr, property: Expr, depth: nat)
    requires depth <= MAX_DEPTH && Consistent(env, w)
    requires GuardsHold(env, w, Eval(env, Eval(env, s, target, depth + 1).1, property, depth + 1).1.obligations)
    ensures var (v, s1) := Eval(env, s, target, depth + 1);
      var (k, s2) := Eval(env, s1, property, depth + 1);
      Means(if k.Known? && k.p.Str? then ReadField(v, k.p.s) else Unknown,
        Lookup(w, Value(env, w, target), Value(env, w, property)))
    decreases Fuel(depth), 1, 0
  {
    hide GuardHolds, Eval, Value, Consistent;
    var (v, s1) := Eval(env, s, target, depth + 1);
    var (k, s2) := Eval(env, s1, property, depth + 1);
    GuardsOfPrefix(env, w, s1.obligations, s2.obligations);
    EvalIsSound(env, w, s, target, depth + 1);
    EvalIsSound(env, w, s1, property, depth + 1);
    if k.Known? && k.p.Str? { FieldIsSound(w, v, Value(env, w, target), k.p.s); }
  }

  lemma FieldIsSound(w: World, v: A, x: V, key: string)
    requires Means(v, x)
    ensures Means(ReadField(v, key), Lookup(w, x, VPrim(Str(key))))
  {
  }

  lemma {:induction false} CallIsSound(env: Env, w: World, s: EvalState, callee: string, arguments: seq<Element>,
      depth: nat)
    requires depth <= MAX_DEPTH && Consistent(env, w) && s.nodes <= MAX_NODES && s.nodes > 0
    requires callee in env.imports && Recognized(env.imports[callee]) && callee !in env.mutated
    requires GuardsHold(env, w, Eval(env, s.(nodes := s.nodes - 1), Call(callee, arguments), depth).1.obligations)
    ensures Means(Eval(env, s.(nodes := s.nodes - 1), Call(callee, arguments), depth).0,
      Value(env, w, Call(callee, arguments)))
    decreases Fuel(depth), 1, |arguments| + 1
  {
    hide GuardHolds, Merge, MergeV, Run, FlatA, FlatV, Recognized, PluginSource, Guard;
    var i := env.imports[callee];
    var (values, s1) := EvalArguments(env, s, arguments, depth);
    var e := Call(callee, arguments);
    var result := Eval(env, s.(nodes := s.nodes - 1), e, depth);
    GuardsOfPrefix(env, w, s1.obligations, result.1.obligations);
    ArgumentsAreSound(env, w, s, arguments, depth);
    var concrete := ValueElements(env, w, arguments);
    if i.imported == "mergeConfig" {
      if MergeArity(values) {
        var o := Merging(values[0], values[1], arguments);
        assert o in result.1.obligations;
        if Left(values[0]).Obj? && values[1].Obj? {
          assert arguments[1].Item? by { SpreadIsUnknown(env, s, arguments, depth, 1); }
          if Aligned(env, w, arguments) { FirstTwoValues(env, w, s, arguments, depth); }
          else { ShiftedIsUnknown(env, w, s, arguments, depth); }
          MergedIsSound(env, w, o);
        } else {
          NotMerged(values[0], values[1]);
        }
      }
    } else if i.source == "eslint/config" {
      FlatIsSound(values, concrete, FLAT_LEVELS);
    } else if |values| == 1 {
      OnlyArgument(env, w, s, arguments, depth);
    }
  }

  lemma NotMerged(left: A, right: A)
    requires !(Left(left).Obj? && right.Obj?)
    ensures Merge(left, right, "").Unknown?
  {
  }

  lemma {:induction false} MergedIsSound(env: Env, w: World, o: Obligation)
    requires o.Merging? && GuardHolds(env, w, o) && Left(o.left).Obj? && o.right.Obj?
    requires var values := ValueElements(env, w, o.arguments);
      if Aligned(env, w, o.arguments) then |values| >= 2 && Means(o.left, values[0]) && Means(o.right, values[1]) else o.left.Unknown?
    ensures var values := ValueElements(env, w, o.arguments);
      |values| >= 2 && Means(Merge(o.left, o.right, ""), MergeV(w.tools, values[0], values[1], ""))
  {
    hide Merge, MergeV, Guard, Run, Blank, Aligned;
    var values := ValueElements(env, w, o.arguments);
    if Aligned(env, w, o.arguments) {
      MergeIsSoundExactlyWhenGuarded(w.tools, o.left, o.right, values[0], values[1], "");
    } else {
      MergeVIsObject(w.tools, values[0], values[1]);
      BlankMergeCovers(o.right, MergeV(w.tools, values[0], values[1], ""));
    }
  }

  /** Only a spread argument is not one value. */
  lemma ShiftedIsUnknown(env: Env, w: World, s: EvalState, arguments: seq<Element>, depth: nat)
    requires depth <= MAX_DEPTH && arguments != [] && !Aligned(env, w, arguments)
    ensures EvalArguments(env, s, arguments, depth).0[0].Unknown?
  {
    hide Value;
    SpreadIsUnknown(env, s, arguments, depth, 0);
  }

  lemma {:induction false} SpreadIsUnknown(env: Env, s: EvalState, arguments: seq<Element>, depth: nat, i: nat)
    requires depth <= MAX_DEPTH && i < |arguments|
    ensures !arguments[i].Item? ==> EvalArguments(env, s, arguments, depth).0[i].Unknown?
    decreases i
  {
    hide Eval;
    if i > 0 {
      var s1 := if arguments[0].Item? then Eval(env, s, arguments[0].e, depth + 1).1 else s.(nodes := s.nodes + 1);
      SpreadIsUnknown(env, s1, arguments[1..], depth, i - 1);
    }
  }

  /** The first two arguments of a call, when they are its first two values. */
  lemma {:induction false} FirstTwoValues(env: Env, w: World, s: EvalState, arguments: seq<Element>, depth: nat)
    requires depth <= MAX_DEPTH && |arguments| >= 2 && Aligned(env, w, arguments) && arguments[1].Item?
    requires Consistent(env, w)
    requires GuardsHold(env, w, EvalArguments(env, s, arguments, depth).1.obligations)
    ensures var values := ValueElements(env, w, arguments);
      var slots := EvalArguments(env, s, arguments, depth).0;
      |values| >= 2 && Means(slots[0], values[0]) && Means(slots[1], values[1])
    decreases Fuel(depth), 1, |arguments|
  {
    hide GuardHolds, Eval, Value, Consistent;
    var head := arguments[0];
    var (first, s1) := if head.Item? then Eval(env, s, head.e, depth + 1) else (Unknown, s.(nodes := s.nodes + 1));
    var (second, s2) := Eval(env, s1, arguments[1].e, depth + 1);
    var rest := arguments[1..];
    assert rest[0] == arguments[1];
    assert EvalArguments(env, s1, rest, depth).0[0] == second;
    assert s2.obligations <= EvalArguments(env, s1, rest, depth).1.obligations;
    GuardsOfPrefix(env, w, s2.obligations, EvalArguments(env, s, arguments, depth).1.obligations);
    GuardsOfPrefix(env, w, s1.obligations, s2.obligations);
    if head.Item? { EvalIsSound(env, w, s, head.e, depth + 1); }
    EvalIsSound(env, w, s1, arguments[1].e, depth + 1);
    assert ValueElements(env, w, rest) == [Value(env, w, rest[0].e)] + ValueElements(env, w, rest[1..]);
  }

  lemma {:induction false} OnlyArgument(env: Env, w: World, s: EvalState, arguments: seq<Element>, depth: nat)
    requires depth <= MAX_DEPTH && |arguments| == 1
    requires Consistent(env, w)
    requires GuardsHold(env, w, EvalArguments(env, s, arguments, depth).1.obligations)
    ensures arguments[0].Item? ==> ValueElements(env, w, arguments) == [Value(env, w, arguments[0].e)]
    ensures arguments[0].Item? ==> Means(EvalArguments(env, s, arguments, depth).0[0], Value(env, w, arguments[0].e))
    ensures !arguments[0].Item? ==> EvalArguments(env, s, arguments, depth).0[0].Unknown?
    decreases Fuel(depth), 1, 1
  {
    hide GuardHolds;
    if arguments[0].Item? {
      assert ValueElements(env, w, arguments[1..]) == [];
      assert EvalArguments(env, s, arguments, depth).1 == Eval(env, s, arguments[0].e, depth + 1).1;
      EvalIsSound(env, w, s, arguments[0].e, depth + 1);
    }
  }

  lemma {:induction false} ElementsAreSound(env: Env, w: World, s: EvalState, elements: seq<Element>, depth: nat)
    requires depth <= MAX_DEPTH && Consistent(env, w)
    requires GuardsHold(env, w, EvalElements(env, s, elements, depth).1.obligations)
    ensures Run(EvalElements(env, s, elements, depth).0, ValueElements(env, w, elements))
    decreases Fuel(depth), 1, |elements|
  {
    hide GuardHolds, EvalElement, ValueElement, Consistent;
    if elements == [] { assert Run([], []); return; }
    var (head, s1) := EvalElement(env, s, elements[0], depth);
    var (tail, s2) := EvalElements(env, s1, elements[1..], depth);
    GuardsOfPrefix(env, w, s1.obligations, s2.obligations);
    ElementIsSound(env, w, s, elements[0], depth);
    ElementsAreSound(env, w, s1, elements[1..], depth);
    RunAppend(head, ValueElement(env, w, elements[0]), tail, ValueElements(env, w, elements[1..]));
  }

  lemma {:induction false} ElementIsSound(env: Env, w: World, s: EvalState, element: Element, depth: nat)
    requires depth <= MAX_DEPTH && Consistent(env, w)
    requires GuardsHold(env, w, EvalElement(env, s, element, depth).1.obligations)
    ensures Run(EvalElement(env, s, element, depth).0, ValueElement(env, w, element))
    decreases Fuel(depth), 0, 0
  {
    hide GuardHolds, Eval, Value, Run;
    match element {
      case Item(e) =>
        EvalIsSound(env, w, s, e, depth + 1);
        RunOne(Eval(env, s, e, depth + 1).0, Value(env, w, e));
      case Spread(e) =>
        EvalIsSound(env, w, s, e, depth + 1);
        RunAny(ValueElement(env, w, element));
      case Hole => RunAny([VUndefined]);
    }
  }

  lemma {:induction false} ArgumentsAreSound(env: Env, w: World, s: EvalState, arguments: seq<Element>, depth: nat)
    requires depth <= MAX_DEPTH && Consistent(env, w)
    requires GuardsHold(env, w, EvalArguments(env, s, arguments, depth).1.obligations)
    ensures Run(EvalArguments(env, s, arguments, depth).0, ValueElements(env, w, arguments))
    decreases Fuel(depth), 1, |arguments|
  {
    hide GuardHolds, Eval, Value, Consistent, Run, GuardsHold;
    if arguments == [] { assert Run([], []) by { RunAppend([], [], [], []); } return; }
    var (head, s1) := if arguments[0].Item? then Eval(env, s, arguments[0].e, depth + 1) else (Unknown, s.(nodes := s.nodes + 1));
    var (tail, s2) := EvalArguments(env, s1, arguments[1..], depth);
    GuardsOfPrefix(env, w, s1.obligations, s2.obligations);
    if arguments[0].Item? {
      EvalIsSound(env, w, s, arguments[0].e, depth + 1);
      RunOne(head, Value(env, w, arguments[0].e));
    } else {
      RunAny(ValueElement(env, w, arguments[0]));
    }
    ArgumentsAreSound(env, w, s1, arguments[1..], depth);
    RunAppend([head], ValueElement(env, w, arguments[0]), tail, ValueElements(env, w, arguments[1..]));
  }

  lemma {:induction false} KeyIsSound(env: Env, w: World, s: EvalState, key: Key, depth: nat)
    requires depth <= MAX_DEPTH && Consistent(env, w)
    requires GuardsHold(env, w, EvalKey(env, s, key, depth).1.obligations)
    ensures EvalKey(env, s, key, depth).0.Some? ==> EvalKey(env, s, key, depth).0.value == ValueKey(env, w, key)
    decreases Fuel(depth), 0, 0
  {
    hide GuardHolds, Consistent;
    if key.Computed? { EvalIsSound(env, w, s, key.e, depth + 1); }
  }

  /** The object built so far, in the evaluator and in the run, but for a phantom `__proto__`. */
  ghost predicate Built(b: Building, run: map<string, V>) {
    && (forall k :: k in b.fields && !(b.phantom && k == "__proto__") ==>
          b.fields[k].Unknown? || (k in run && Means(b.fields[k], run[k])))
    && (!b.open ==> forall k :: k in run ==> k in b.fields)
    && (b.phantom ==> "__proto__" in b.fields && !b.fields["__proto__"].Unknown?)
  }

  lemma BuiltIsSoundExactly(b: Building, run: map<string, V>)
    requires Built(b, run)
    ensures Means(Obj(b.fields, b.open), VObj(run)) <==> (b.phantom ==> HasField(run, b.fields["__proto__"]))
  {
  }

  /** A literal whose parts are described rightly is itself described rightly, unless its `__proto__`
      is a phantom that no field of the run happens to match. */
  lemma {:induction false} LiteralIsSoundExactly(env: Env, w: World, s: EvalState, properties: seq<Property>,
      depth: nat)
    requires depth <= MAX_DEPTH && Consistent(env, w)
    requires GuardsHold(env, w, EvalProperties(env, s, properties, NOTHING, depth).1.obligations)
    ensures var b := EvalProperties(env, s, properties, NOTHING, depth).0;
      var run := ValueProperties(env, w, properties, map[]);
      && (b.phantom ==> "__proto__" in b.fields)
      && (Means(Obj(b.fields, b.open), VObj(run)) <==> (b.phantom ==> HasField(run, b.fields["__proto__"])))
    decreases Fuel(depth), 1, |properties| + 1
  {
    hide GuardHolds, Means, EvalProperty, ValueProperty;
    PropertiesAreSound(env, w, s, properties, NOTHING, map[], depth);
    BuiltIsSoundExactly(EvalProperties(env, s, properties, NOTHING, depth).0,
      ValueProperties(env, w, properties, map[]));
  }

  lemma {:induction false} LiteralIsSound(env: Env, w: World, s: EvalState, properties: seq<Property>, depth: nat)
    requires depth <= MAX_DEPTH && Consistent(env, w)
    requires var (b, s1) := EvalProperties(env, s, properties, NOTHING, depth);
      GuardsHold(env, w, Finish(s1, b, properties).obligations)
    ensures var b := EvalProperties(env, s, properties, NOTHING, depth).0;
      Means(Obj(b.fields, b.open), VObj(ValueProperties(env, w, properties, map[])))
    decreases Fuel(depth), 1, |properties| + 2
  {
    hide Means, EvalProperties, ValueProperties;
    var (b, s1) := EvalProperties(env, s, properties, NOTHING, depth);
    var all := Finish(s1, b, properties).obligations;
    assert GuardsHold(env, w, s1.obligations) by { GuardsOfPrefix(env, w, s1.obligations, all); }
    LiteralIsSoundExactly(env, w, s, properties, depth);
    if b.phantom {
      var o := Prototype(b.fields["__proto__"], properties);
      assert all[|s1.obligations|] == o;
      assert GuardHolds(env, w, o);
    }
  }

  lemma {:induction false} PropertiesAreSound(env: Env, w: World, s: EvalState, properties: seq<Property>, b: Building,
      run: map<string, V>, depth: nat)
    requires depth <= MAX_DEPTH && Consistent(env, w)
    requires GuardsHold(env, w, EvalProperties(env, s, properties, b, depth).1.obligations)
    requires Built(b, run)
    ensures Built(EvalProperties(env, s, properties, b, depth).0, ValueProperties(env, w, properties, run))
    decreases Fuel(depth), 1, |properties|
  {
    hide GuardHolds, EvalProperty, ValueProperty, Consistent, Means, Built;
    if properties == [] { return; }
    var (b', s') := EvalProperty(env, s, properties[0], b, depth);
    GuardsOfPrefix(env, w, s'.obligations, EvalProperties(env, s', properties[1..], b', depth).1.obligations);
    PropertyIsSound(env, w, s, properties[0], b, run, depth);
    PropertiesAreSound(env, w, s', properties[1..], b', ValueProperty(env, w, properties[0], run), depth);
  }

  lemma {:induction false} PropertyIsSound(env: Env, w: World, s: EvalState, property: Property, b: Building,
      run: map<string, V>, depth: nat)
    requires depth <= MAX_DEPTH && Consistent(env, w)
    requires GuardsHold(env, w, EvalProperty(env, s, property, b, depth).1.obligations)
    requires Built(b, run)
    ensures Built(EvalProperty(env, s, property, b, depth).0, ValueProperty(env, w, property, run))
    decreases Fuel(depth), 0, 1
  {
    hide GuardHolds, Eval, Value, Consistent, Run;
    match property {
      case SpreadIn(e) =>
        EvalIsSound(env, w, s, e, depth + 1);
      case Field(key, value, _) =>
        var (name, s1) := EvalKey(env, s, key, depth);
        if name.Some? {
          var (v, s2) := Eval(env, s1, value, depth + 1);
          GuardsOfPrefix(env, w, s1.obligations, s2.obligations);
          KeyIsSound(env, w, s, key, depth);
          EvalIsSound(env, w, s1, value, depth + 1);
        }
      case Method(key) =>
        KeyIsSound(env, w, s, key, depth);
    }
  }

  const FRESH := EvalState(0, {}, {}, [])

  /** The evaluator's claim: the run's value lies in the meaning of what `evaluate` answers. */
  lemma {:induction false} EvaluationOverApproximates(env: Env, w: World, e: Expr)
    requires Consistent(env, w)
    requires GuardsHold(env, w, Eval(env, FRESH, e, 0).1.obligations)
    ensures Means(Eval(env, FRESH, e, 0).0, Value(env, w, e))
  {
    EvalIsSound(env, w, FRESH, e, 0);
  }

  // ----- where the hypotheses are needed -----

  /** A later property makes up for a phantom: it writes a field `__proto__`, or makes the evaluator
      forget the object. */
  predicate MakesUp(env: Env, s: EvalState, property: Property, depth: nat)
    requires depth <= MAX_DEPTH
  {
    match property
    case SpreadIn(e) =>
      var spread := Eval(env, s, e, depth + 1).0;
      !spread.Obj? || spread.open || "__proto__" in spread.fields
    case Field(key, _, _) => EvalKey(env, s, key, depth).0 in {None, Some("__proto__")}
    case Method(key) => EvalKey(env, s, key, depth).0 in {None, Some("__proto__")}
  }

  predicate SomeMakesUp(env: Env, s: EvalState, properties: seq<Property>, b: Building, depth: nat)
    requires depth <= MAX_DEPTH
    decreases |properties|
  {
    properties != [] &&
      (MakesUp(env, s, properties[0], depth)
       || (var (b', s') := EvalProperty(env, s, properties[0], b, depth); SomeMakesUp(env, s', properties[1..], b',
         depth)))
  }

  predicate NoneSetsPrototype(properties: seq<Property>) {
    forall k :: 0 <= k < |properties| ==> !SetsPrototype(properties[k])
  }

  lemma {:induction false} PhantomUntilMadeUpFor(env: Env, w: World, s: EvalState, properties: seq<Property>,
      b: Building, run: map<string, V>, depth: nat)
    requires depth <= MAX_DEPTH && Consistent(env, w) && NoneSetsPrototype(properties) && Built(b, run)
    requires GuardsHold(env, w, EvalProperties(env, s, properties, b, depth).1.obligations)
    ensures var end := EvalProperties(env, s, properties, b, depth).0;
      var endRun := ValueProperties(env, w, properties, run);
      && (end.phantom <==> b.phantom && !SomeMakesUp(env, s, properties, b, depth))
      && (end.phantom ==> "__proto__" in end.fields && "__proto__" in b.fields && end.fields["__proto__"] == b.fields["__proto__"])
      && (end.phantom ==> ("__proto__" in endRun <==> "__proto__" in run))
      && (end.phantom && "__proto__" in run ==> endRun["__proto__"] == run["__proto__"])
    decreases |properties|
  {
    hide GuardHolds, EvalProperty, ValueProperty, Consistent, Means, Built;
    if properties == [] { PhantomIsThere(b, run); return; }
    var (b', s') := EvalProperty(env, s, properties[0], b, depth);
    var run' := ValueProperty(env, w, properties[0], run);
    GuardsOfPrefix(env, w, s'.obligations, EvalProperties(env, s', properties[1..], b', depth).1.obligations);
    PropertyIsSound(env, w, s, properties[0], b, run, depth);
    OneMore(env, w, s, properties[0], b, run, depth);
    assert forall k :: 0 <= k < |properties[1..]| ==> properties[1..][k] == properties[k + 1];
    PhantomUntilMadeUpFor(env, w, s', properties[1..], b', run', depth);
    PropertiesAreSound(env, w, s', properties[1..], b', run', depth);
  }
  lemma {:induction false} OneMore(env: Env, w: World, s: EvalState, property: Property, b: Building,
      run: map<string, V>, depth: nat)
    requires depth <= MAX_DEPTH && Consistent(env, w) && !SetsPrototype(property) && Built(b, run)
    requires GuardsHold(env, w, EvalProperty(env, s, property, b, depth).1.obligations)
    ensures var b' := EvalProperty(env, s, property, b, depth).0;
      var run' := ValueProperty(env, w, property, run);
      && (b'.phantom <==> b.phantom && !MakesUp(env, s, property, depth))
      && (b'.phantom ==> "__proto__" in b.fields && "__proto__" in b'.fields && b'.fields["__proto__"] == b.fields["__proto__"])
      && (b'.phantom ==> ("__proto__" in run' <==> "__proto__" in run))
      && (b'.phantom && "__proto__" in run ==> run'["__proto__"] == run["__proto__"])
  {
    hide GuardHolds, Eval, Value, Consistent, Run;
    match property {
      case SpreadIn(e) =>
        EvalIsSound(env, w, s, e, depth + 1);
      case Field(key, value, _) =>
        var (name, s1) := EvalKey(env, s, key, depth);
        if name.Some? {
          GuardsOfPrefix(env, w, s1.obligations, Eval(env, s1, value, depth + 1).1.obligations);
          KeyIsSound(env, w, s, key, depth);
        }
      case Method(key) =>
        KeyIsSound(env, w, s, key, depth);
    }
  }

  lemma {:induction false} EvalPropertiesAppend(env: Env, s: EvalState, p: seq<Property>, q: seq<Property>,
      b: Building, depth: nat)
    requires depth <= MAX_DEPTH
    ensures var (b', s') := EvalProperties(env, s, p, b, depth);
      EvalProperties(env, s, p + q, b, depth) == EvalProperties(env, s', q, b', depth)
    decreases |p|
  {
    hide EvalProperty;
    if p == [] { assert p + q == q; return; }
    assert (p + q)[0] == p[0] && (p + q)[1..] == p[1..] + q;
    var (b', s') := EvalProperty(env, s, p[0], b, depth);
    EvalPropertiesAppend(env, s', p[1..], q, b', depth);
  }

  lemma {:induction false} ValuePropertiesAppend(env: Env, w: World, p: seq<Property>, q: seq<Property>,
      run: map<string, V>)
    ensures ValueProperties(env, w, p + q, run) == ValueProperties(env, w, q, ValueProperties(env, w, p, run))
    decreases |p|
  {
    hide ValueProperty;
    if p == [] { assert p + q == q; return; }
    assert (p + q)[0] == p[0] && (p + q)[1..] == p[1..] + q;
    ValuePropertiesAppend(env, w, p[1..], q, ValueProperty(env, w, p[0], run));
  }

  /** Where the last `__proto__: v` of a literal stands between `pre` and `post`, the literal is
      described rightly exactly when `v` is unresolved, or a later property makes up for it, or `pre`
      gave the run a field `__proto__` that `v` happens to describe. */
  lemma {:induction false} PrototypeFieldIsSoundExactly(env: Env, w: World, s: EvalState, pre: seq<Property>,
      value: Expr, post: seq<Property>, depth: nat)
    requires depth <= MAX_DEPTH && s.nodes < MAX_NODES && Consistent(env, w) && NoneSetsPrototype(post)
    requires var properties := pre + ([Field(Named("__proto__"), value, false)] + post);
      GuardsHold(env, w, EvalProperties(env, s.(nodes := s.nodes + 1), properties, NOTHING, depth).1.obligations)
    ensures var setter := Field(Named("__proto__"), value, false);
      var literal := ObjectLit(pre + ([setter] + post));
      var (before, s1) := EvalProperties(env, s.(nodes := s.nodes + 1), pre, NOTHING, depth);
      var (after, s2) := EvalProperty(env, s1, setter, before, depth);
      var v := Eval(env, s1, value, depth + 1).0;
      Means(Eval(env, s, literal, depth).0, Value(env, w, literal)) <==>
        v.Unknown? || SomeMakesUp(env, s2, post, after, depth) || HasField(ValueProperties(env, w, pre, map[]), v)
  {
    hide GuardHolds, Consistent, Means, Built, EvalProperty, EvalProperties, ValueProperties, SomeMakesUp;
    var setter := Field(Named("__proto__"), value, false);
    var rest := [setter] + post;
    var properties := pre + rest;
    var s0 := s.(nodes := s.nodes + 1);
    var (before, s1) := EvalProperties(env, s0, pre, NOTHING, depth);
    var (after, s2) := EvalProperty(env, s1, setter, before, depth);
    var run := ValueProperties(env, w, pre, map[]);
    EvalPropertiesAppend(env, s0, pre, rest, NOTHING, depth);
    ValuePropertiesAppend(env, w, pre, rest, map[]);
    SetterFirst(env, w, s1, value, post, before, run, depth);
    var end := EvalProperties(env, s2, post, after, depth);
    assert s1.obligations <= s2.obligations <= end.1.obligations;
    GuardsOfPrefix(env, w, s2.obligations, end.1.obligations);
    GuardsOfPrefix(env, w, s1.obligations, s2.obligations);
    assert Built(NOTHING, map[]) by { NothingIsBuilt(); }
    PropertiesAreSound(env, w, s0, pre, NOTHING, map[], depth);
    PropertyIsSound(env, w, s1, setter, before, run, depth);
    PhantomUntilMadeUpFor(env, w, s2, post, after, run, depth);
    LiteralIsSoundExactly(env, w, s0, properties, depth);
    LiteralEval(env, w, s, properties, depth);
  }

  lemma PhantomIsThere(b: Building, run: map<string, V>)
    requires Built(b, run)
    ensures b.phantom ==> "__proto__" in b.fields
  {
  }

  lemma NothingIsBuilt()
    ensures Built(NOTHING, map[])
  {
  }

  lemma SetterFirst(env: Env, w: World, s: EvalState, value: Expr, post: seq<Property>, b: Building,
      run: map<string, V>, depth: nat)
    requires depth <= MAX_DEPTH
    ensures var setter := Field(Named("__proto__"), value, false);
      var (b', s') := EvalProperty(env, s, setter, b, depth);
      var v := Eval(env, s, value, depth + 1).0;
      && EvalProperties(env, s, [setter] + post, b, depth) == EvalProperties(env, s', post, b', depth)
      && ValueProperties(env, w, [setter] + post, run) == ValueProperties(env, w, post, run)
      && ValueProperty(env, w, setter, run) == run
      && (b'.phantom <==> !v.Unknown?) && "__proto__" in b'.fields && b'.fields["__proto__"] == v
  {
    hide Eval;
    var setter := Field(Named("__proto__"), value, false);
    assert ([setter] + post)[0] == setter && ([setter] + post)[1..] == post;
  }

  lemma LiteralEval(env: Env, w: World, s: EvalState, properties: seq<Property>, depth: nat)
    requires depth <= MAX_DEPTH && s.nodes < MAX_NODES
    ensures var b := EvalProperties(env, s.(nodes := s.nodes + 1), properties, NOTHING, depth).0;
      && Eval(env, s, ObjectLit(properties), depth).0 == Obj(b.fields, b.open)
      && Value(env, w, ObjectLit(properties)) == VObj(ValueProperties(env, w, properties, map[]))
  {
  }

  /** `mergeConfig(...both, { a: 1 })` merges the two spread values; the evaluator merges the third. */
  lemma {:induction false} SpreadMergeIsUnsound(w: World)
    requires w.binding("both") == VArr([VObj(map[]), VObj(map[])])
    ensures var env := Env(map[], map["mergeConfig" := Import("vite", "mergeConfig", Unknown)], {});
      var e := Call("mergeConfig", [Spread(Ident("both")), Item(ObjectLit([Field(Named("a"), Literal(Num(1.0)),
        false)]))]);
      Consistent(env, w) && !Means(Eval(env, FRESH, e, 0).0, Value(env, w, e))
  {
    hide Means;
    var env := Env(map[], map["mergeConfig" := Import("vite", "mergeConfig", Unknown)], {});
    var literal := ObjectLit([Field(Named("a"), Literal(Num(1.0)), false)]);
    var arguments := [Spread(Ident("both")), Item(literal)];
    var e := Call("mergeConfig", arguments);
    assert Consistent(env, w) by { MeansAnything(w.binding("mergeConfig")); }
    assert Value(env, w, e) == VObj(map[]) by { SpreadMergeValue(env, w, literal); }
    assert Eval(env, FRESH, e, 0).0 == Merge(Unknown, Obj(map["a" := Known(Num(1.0))], false), "") by { SpreadMergeEval(env); }
    AddedFieldIsMissing();
  }

  lemma MeansAnything(v: V)
    ensures Means(Unknown, v)
  {
  }

  lemma SpreadMergeValue(env: Env, w: World, literal: Expr)
    requires w.binding("both") == VArr([VObj(map[]), VObj(map[])])
    requires env.imports == map["mergeConfig" := Import("vite", "mergeConfig", Unknown)]
    ensures Value(env, w, Call("mergeConfig", [Spread(Ident("both")), Item(literal)])) == VObj(map[])
  {
    var arguments := [Spread(Ident("both")), Item(literal)];
    assert arguments[1..] == [Item(literal)] && [Item(literal)][1..] == [];
    var both := [VObj(map[]), VObj(map[])];
    assert ValueElement(env, w, arguments[0]) == both;
    var values := ValueElements(env, w, arguments);
    assert values == both + ValueElements(env, w, arguments[1..]);
    assert values[0] == both[0] && values[1] == both[1];
    assert MergeV(w.tools, VObj(map[]), VObj(map[]), "") == VObj(map[]);
  }

  lemma {:induction false} SpreadMergeEval(env: Env)
    requires env.imports == map["mergeConfig" := Import("vite", "mergeConfig", Unknown)] && env.mutated == {}
    ensures Eval(env, FRESH, Call("mergeConfig", [Spread(Ident("both")), Item(ObjectLit([Field(Named("a"), Literal(Num(1.0)), false)]))]), 0).0
      == Merge(Unknown, Obj(map["a" := Known(Num(1.0))], false), "")
  {
    hide Merge;
    var property := Field(Named("a"), Literal(Num(1.0)), false);
    var literal := ObjectLit([property]);
    var arguments := [Spread(Ident("both")), Item(literal)];
    var s := FRESH.(nodes := 1);
    var s1 := s.(nodes := 2);
    assert Eval(env, s1, literal, 1).0 == Obj(map["a" := Known(Num(1.0))], false) by {
      assert [property][1..] == [];
      var s2 := s1.(nodes := 3);
      assert Eval(env, s2, property.value, 2).0 == Known(Num(1.0));
      var (b, s') := EvalProperty(env, s2, property, NOTHING, 1);
      assert EvalProperties(env, s', [], b, 1).0 == b;
    }
    assert arguments[1..] == [Item(literal)] && [Item(literal)][1..] == [];
    var last := EvalArguments(env, s1, [Item(literal)], 0);
    assert last.0 == [Eval(env, s1, literal, 1).0] + [];
    var values := EvalArguments(env, s, arguments, 0).0;
    assert values == [Unknown] + last.0;
  }

  lemma AddedFieldIsMissing()
    ensures !Means(Merge(Unknown, Obj(map["a" := Known(Num(1.0))], false), ""), VObj(map[]))
  {
    var right := Obj(map["a" := Known(Num(1.0))], false);
    assert "a" in right.fields && FieldPath("", "a") == "a";
    var merged := Merge(Unknown, right, "");
    assert merged.fields["a"] == Known(Num(1.0));
  }
}
