/** The evaluator of `static-configuration-parser.ts` over one module: `Eval` computes what the
    source computes, with its node and depth budgets; `Value` is what one concrete run of the same
    expressions yields, for any behaviour of everything the evaluator does not look into. */
module StaticEvaluatorModel {
  import opened Text
  import opened StaticValues

  datatype Expr =
    | Literal(p: Prim)
    | Negated(n: real)
    | Wrapped(inner: Expr)
    | Ident(name: string)
    | Member(target: Expr, name: string)
    | Index(target: Expr, property: Expr)
    | ArrayLit(elements: seq<Element>)
    | ObjectLit(properties: seq<Property>)
    | Call(callee: string, arguments: seq<Element>)
    | Unsupported(tag: nat)

  datatype Element = Item(e: Expr) | Spread(e: Expr) | Hole

  datatype Key = Named(name: string) | Numeric(text: string) | Computed(e: Expr)

  datatype Property = Field(key: Key, value: Expr, shorthand: bool) | Method(key: Key) | SpreadIn(e: Expr)

  /** An import, with the abstract value of what it names. */
  datatype Import = Import(source: string, imported: string, value: A)

  datatype Env = Env(bindings: map<string, Expr>, imports: map<string, Import>, mutated: set<string>)

  /** What the evaluator took for granted: that it knows what a `mergeConfig` call merges, and that a
      literal whose `__proto__` it resolved has a field of that name. */
  datatype Obligation =
    | Merging(left: A, right: A, arguments: seq<Element>)
    | Prototype(answer: A, properties: seq<Property>)

  datatype EvalState = EvalState(nodes: nat, resolving: set<string>, plugins: set<string>, obligations: seq<Obligation>)

  /** An object under construction; `phantom` while its field `__proto__` stands for a prototype. */
  datatype Building = Building(fields: map<string, A>, open: bool, phantom: bool)

  const NOTHING := Building(map[], false, false)

  const MAX_NODES: nat := 10000
  const MAX_DEPTH: nat := 64
  const FLAT_LEVELS: nat := 64

  predicate Recognized(i: Import) {
    && i.source in ["eslint/config", "vite", "vitest/config", "rollup", "@playwright/test"]
    && i.imported in ["defineConfig", "mergeConfig"]
  }

  predicate PluginSource(source: string) {
    || source == "@tailwindcss/vite"
    || StartsWith(source, "@vitejs/plugin-") || StartsWith(source, "@rollup/plugin-")
    || StartsWith(source, "rollup-plugin-") || StartsWith(source, "vite-plugin-") || StartsWith(source, "unplugin-")
  }

  function Fuel(depth: nat): nat {
    if depth <= MAX_DEPTH + 1 then MAX_DEPTH + 1 - depth else 0
  }

  function ReadField(v: A, key: string): A {
    if v.Obj? && key in v.fields then v.fields[key] else Unknown
  }

  function Eval(env: Env, s0: EvalState, e: Expr, depth: nat): (r: (A, EvalState))
    ensures s0.obligations <= r.1.obligations
    decreases Fuel(depth), 2, 0
  {
    var s := s0.(nodes := s0.nodes + 1);
    if s.nodes > MAX_NODES || depth > MAX_DEPTH then (Unknown, s)
    else match e
      case Literal(p) => (Known(p), s)
      case Negated(n) => (Known(Num(-n)), s)
      case Wrapped(inner) => Eval(env, s, inner, depth + 1)
      case Ident(name) =>
        if name in env.mutated || name in s.resolving then (Unknown, s)
        else if name in env.imports then (env.imports[name].value, s)
        else if name !in env.bindings then (Unknown, s)
        else
          var (v, s1) := Eval(env, s.(resolving := s.resolving + {name}), env.bindings[name], depth + 1);
          (v, s1.(resolving := s1.resolving - {name}))
      case Member(target, name) =>
        var (v, s1) := Eval(env, s, target, depth + 1);
        (ReadField(v, name), s1)
      case Index(target, property) =>
        var (v, s1) := Eval(env, s, target, depth + 1);
        var (k, s2) := Eval(env, s1, property, depth + 1);
        (if k.Known? && k.p.Str? then ReadField(v, k.p.s) else Unknown, s2)
      case ArrayLit(elements) =>
        var (items, s1) := EvalElements(env, s, elements, depth);
        (Arr(items), s1)
      case ObjectLit(properties) =>
        var (b, s1) := EvalProperties(env, s, properties, NOTHING, depth);
        (Obj(b.fields, b.open), Finish(s1, b, properties))
      case Call(callee, arguments) =>
        if callee !in env.imports then (Unknown, s)
        else
          var i := env.imports[callee];
          if Recognized(i) && callee !in env.mutated then
            var (values, s1) := EvalArguments(env, s, arguments, depth);
            if i.imported == "mergeConfig" then
              if MergeArity(values) then
                (Merge(values[0], values[1], ""),
                 s1.(obligations := s1.obligations + [Merging(values[0], values[1], arguments)]))
              else (Unknown, s1)
            else if i.source == "eslint/config" then (Arr(FlatA(values, FLAT_LEVELS)), s1)
            else (if |values| == 1 then values[0] else Unknown, s1)
          else (Unknown, if PluginSource(i.source) then s.(plugins := s.plugins + {i.source}) else s)
      case Unsupported(_) => (Unknown, s)
  }

  predicate MergeArity(values: seq<A>) {
    2 <= |values| <= 3 && (|values| == 3 ==> values[2].Known? && values[2].p.Bool?)
  }

  /** The end of a literal. */
  function Finish(s: EvalState, b: Building, properties: seq<Property>): EvalState {
    if b.phantom then s.(obligations := s.obligations + [Prototype(ReadField(Obj(b.fields, b.open), "__proto__"), properties)]) else s
  }

  function EvalElements(env: Env, s: EvalState, elements: seq<Element>, depth: nat): (r: (seq<A>, EvalState))
    requires depth <= MAX_DEPTH
    ensures s.obligations <= r.1.obligations
    decreases Fuel(depth), 1, |elements|
  {
    if elements == [] then ([], s)
    else
      var (head, s1) := EvalElement(env, s, elements[0], depth);
      var (tail, s2) := EvalElements(env, s1, elements[1..], depth);
      (head + tail, s2)
  }

  function EvalElement(env: Env, s: EvalState, element: Element, depth: nat): (r: (seq<A>, EvalState))
    requires depth <= MAX_DEPTH
    ensures s.obligations <= r.1.obligations
    decreases Fuel(depth), 0, 0
  {
    match element
    case Item(e) => var (v, s1) := Eval(env, s, e, depth + 1); ([v], s1)
    case Spread(e) => var (v, s1) := Eval(env, s, e, depth + 1); (if v.Arr? then v.items else [Unknown], s1)
    case Hole => ([Unknown], s.(nodes := s.nodes + 1))
  }

  /** A spread argument is one unresolved value. */
  function EvalArguments(env: Env, s: EvalState, arguments: seq<Element>, depth: nat): (r: (seq<A>, EvalState))
    requires depth <= MAX_DEPTH
    ensures s.obligations <= r.1.obligations
    ensures |r.0| == |arguments|
    decreases Fuel(depth), 1, |arguments|
  {
    if arguments == [] then ([], s)
    else
      var (head, s1) := if arguments[0].Item? then Eval(env, s, arguments[0].e, depth + 1) else (Unknown, s.(nodes := s.nodes + 1));
      var (tail, s2) := EvalArguments(env, s1, arguments[1..], depth);
      ([head] + tail, s2)
  }

  function Blurred(fields: map<string, A>): map<string, A> {
    map k | k in fields :: Unknown
  }

  function EvalKey(env: Env, s: EvalState, key: Key, depth: nat): (r: (Option<string>, EvalState))
    requires depth <= MAX_DEPTH
    ensures s.obligations <= r.1.obligations
    decreases Fuel(depth), 0, 0
  {
    match key
    case Named(name) => (Some(name), s)
    case Numeric(_) => (None, s)
    case Computed(e) =>
      var (k, s1) := Eval(env, s, e, depth + 1);
      (if k.Known? && k.p.Str? then Some(k.p.s) else None, s1)
  }

  /** `{ __proto__: v }`, written out, sets the prototype and no field. */
  predicate SetsPrototype(property: Property) {
    property.Field? && property.key == Named("__proto__") && !property.shorthand
  }

  /** Everything known so far is forgotten. */
  function Blur(b: Building): Building {
    Building(Blurred(b.fields), true, false)
  }

  /** The object being built, after one more property. */
  function EvalProperty(env: Env, s: EvalState, property: Property, b: Building, depth: nat): (r: (Building, EvalState))
    requires depth <= MAX_DEPTH
    ensures s.obligations <= r.1.obligations
    decreases Fuel(depth), 0, 1
  {
    match property
    case SpreadIn(e) =>
      var (spread, s1) := Eval(env, s, e, depth + 1);
      var kept := if !spread.Obj? || spread.open then Blur(b) else b;
      (if spread.Obj?
       then Building(kept.fields + spread.fields, kept.open, kept.phantom && "__proto__" !in spread.fields)
       else kept, s1)
    case Field(key, value, _) =>
      var (name, s1) := EvalKey(env, s, key, depth);
      if name == None then (Blur(b), s1)
      else
        var (v, s2) := Eval(env, s1, value, depth + 1);
        var phantom := if SetsPrototype(property) then !v.Unknown? else b.phantom && name.value != "__proto__";
        (Building(b.fields[name.value := v], b.open, phantom), s2)
    case Method(key) =>
      var (name, s1) := EvalKey(env, s, key, depth);
      (if name == None then Blur(b)
       else Building(b.fields[name.value := Unknown], b.open, b.phantom && name.value != "__proto__"), s1)
  }

  function EvalProperties(env: Env, s: EvalState, properties: seq<Property>, b: Building,
      depth: nat): (r: (Building, EvalState))
    requires depth <= MAX_DEPTH
    ensures s.obligations <= r.1.obligations
    decreases Fuel(depth), 1, |properties|
  {
    if properties == [] then (b, s)
    else
      var (b', s') := EvalProperty(env, s, properties[0], b, depth);
      EvalProperties(env, s', properties[1..], b', depth)
  }

  // ----- one concrete run -----

  /** The run's answers for whatever the evaluator does not look into: other expressions, lookups
      beyond own fields, iterating and spreading other values, methods and accessors, key conversion. */
  datatype World = World(
    binding: string -> V, unsupported: Expr -> V, lookup: (V, V) -> V,
    elements: V -> seq<V>, own: V -> map<string, V>, accessor: string -> V, key: V -> string, tools: MergeTools)

  function Lookup(w: World, v: V, key: V): V {
    if v.VObj? && key.VPrim? && key.p.Str? && key.p.s in v.fields then v.fields[key.p.s] else w.lookup(v, key)
  }

  function Value(env: Env, w: World, e: Expr): V
    decreases e, 2
  {
    match e
    case Literal(p) => VPrim(p)
    case Negated(n) => VPrim(Num(-n))
    case Wrapped(inner) => Value(env, w, inner)
    case Ident(name) => w.binding(name)
    case Member(target, name) => Lookup(w, Value(env, w, target), VPrim(Str(name)))
    case Index(target, property) => Lookup(w, Value(env, w, target), Value(env, w, property))
    case ArrayLit(elements) => VArr(ValueElements(env, w, elements))
    case ObjectLit(properties) => VObj(ValueProperties(env, w, properties, map[]))
    case Call(callee, arguments) =>
      var values := ValueElements(env, w, arguments);
      if callee !in env.imports || !Recognized(env.imports[callee]) then w.unsupported(e)
      else if env.imports[callee].imported == "mergeConfig" then
        if |values| >= 2 then MergeV(w.tools, values[0], values[1], "") else w.unsupported(e)
      else if env.imports[callee].source == "eslint/config" then VArr(FlatV(values, FLAT_LEVELS))
      else if |values| == 1 then values[0]
      else w.unsupported(e)
    case Unsupported(_) => w.unsupported(e)
  }

  function ValueElements(env: Env, w: World, elements: seq<Element>): seq<V>
    decreases elements, 1
  {
    if elements == [] then [] else ValueElement(env, w, elements[0]) + ValueElements(env, w, elements[1..])
  }

  function ValueElement(env: Env, w: World, element: Element): seq<V>
    decreases element, 0
  {
    match element
    case Item(e) => [Value(env, w, e)]
    case Spread(e) =>
      var v := Value(env, w, e);
      if v.VArr? then v.items else w.elements(v)
    case Hole => [VUndefined]
  }

  function ValueKey(env: Env, w: World, key: Key): string
    decreases key, 0
  {
    match key
    case Named(name) => name
    case Numeric(text) => text
    case Computed(e) =>
      var v := Value(env, w, e);
      if v.VPrim? && v.p.Str? then v.p.s else w.key(v)
  }

  function ValueProperty(env: Env, w: World, property: Property, fields: map<string, V>): map<string, V>
    decreases property, 1
  {
    match property
    case SpreadIn(e) =>
      var v := Value(env, w, e);
      fields + (if v.VObj? then v.fields else w.own(v))
    case Field(key, value, shorthand) =>
      if SetsPrototype(property) then fields else fields[ValueKey(env, w, key) := Value(env, w, value)]
    case Method(key) =>
      var name := ValueKey(env, w, key);
      fields[name := w.accessor(name)]
  }

  function ValueProperties(env: Env, w: World, properties: seq<Property>, fields: map<string, V>): map<string, V>
    decreases properties, 1
  {
    if properties == [] then fields
    else ValueProperties(env, w, properties[1..], ValueProperty(env, w, properties[0], fields))
  }
}
