/** `clean` of `static-configuration-parser.ts` and what its callers may rely on: the value reported
    for a configuration is part of the value of every run, and it is the value of every run when
    nothing was left unresolved. */
module StaticInspection {
  import opened Text
  import opened StaticValues
  import opened StaticEvaluatorModel
  import opened StaticEvaluatorSafety

  datatype Step = At(index: nat) | Under(key: string) | Rest
  type Path = seq<Step>

  datatype CleanState = CleanState(nodes: nat, unresolved: seq<Path>)

  /** The order in which an object lists its fields. */
  type FieldOrder = map<string, A> -> seq<string>

  ghost predicate Enumerates(order: FieldOrder) {
    forall fields: map<string, A>, k :: k in order(fields) <==> k in fields
  }

  function Leave(s: CleanState, path: Path): CleanState {
    s.(unresolved := s.unresolved + [path])
  }

  function Clean(order: FieldOrder, value: A, path: Path, depth: nat, s0: CleanState): (r: (Option<V>, CleanState))
    ensures s0.unresolved <= r.1.unresolved
    decreases value, 2, 0
  {
    var s := s0.(nodes := s0.nodes + 1);
    if s.nodes > MAX_NODES || depth > MAX_DEPTH then (None, Leave(s, path))
    else match value
      case Unknown => (None, Leave(s, path))
      case Known(p) => (Some(VPrim(p)), s)
      case Arr(items) =>
        var (cleaned, s1) := CleanItems(order, items, path, 0, depth, s);
        (Some(VArr(cleaned)), s1)
      case Obj(fields, open) =>
        var s1 := if open then Leave(s, path + [Rest]) else s;
        var (cleaned, s2) := CleanFields(order, value, order(fields), path, depth, s1);
        (Some(VObj(cleaned)), s2)
  }

  function CleanItems(order: FieldOrder, items: seq<A>, path: Path, index: nat, depth: nat,
      s: CleanState): (r: (seq<V>, CleanState))
    ensures s.unresolved <= r.1.unresolved
    decreases items, 1, 0
  {
    if items == [] then ([], s)
    else
      var (head, s1) := Clean(order, items[0], path + [At(index)], depth + 1, s);
      var (tail, s2) := CleanItems(order, items[1..], path, index + 1, depth, s1);
      ((if head.Some? then [head.value] else []) + tail, s2)
  }

  /** The named fields; one that stays unresolved is left out. */
  function CleanFields(order: FieldOrder, value: A, keys: seq<string>, path: Path, depth: nat,
      s: CleanState): (r: (map<string, V>, CleanState))
    requires value.Obj?
    ensures s.unresolved <= r.1.unresolved
    decreases value, 1, |keys|
  {
    if keys == [] then (map[], s)
    else if keys[0] !in value.fields then CleanFields(order, value, keys[1..], path, depth, s)
    else
      var (child, s1) := Clean(order, value.fields[keys[0]], path + [Under(keys[0])], depth + 1, s);
      var (rest, s2) := CleanFields(order, value, keys[1..], path, depth, s1);
      (if child.Some? then rest[keys[0] := child.value] else rest, s2)
  }

  // ----- what is reported is part of every run's value -----

  /** `part` with possibly more list elements and more fields, at any depth. */
  ghost predicate Part(part: V, whole: V)
    decreases part, 0
  {
    match part
    case VArr(items) => whole.VArr? && PartItems(items, whole.items)
    case VObj(fields) => whole.VObj? && forall k :: k in fields ==> k in whole.fields && Part(fields[k],
      whole.fields[k])
    case _ => part == whole
  }

  /** Parts of some of the elements, in order. */
  ghost predicate PartItems(parts: seq<V>, items: seq<V>)
    decreases parts, 1
  {
    if parts == [] then true
    else exists n :: 0 <= n < |items| && Part(parts[0], items[n]) && PartItems(parts[1..], items[n + 1..])
  }

  lemma {:induction false} PartItemsLater(parts: seq<V>, items: seq<V>, n: nat)
    requires n <= |items| && PartItems(parts, items[n..])
    ensures PartItems(parts, items)
    decreases parts
  {
    if parts != [] {
      var m :| 0 <= m < |items[n..]| && Part(parts[0], items[n..][m]) && PartItems(parts[1..], items[n..][m + 1..]);
      assert items[n..][m] == items[n + m] && items[n..][m + 1..] == items[n + m + 1..];
    }
  }

  lemma {:induction false} CleanIsPart(order: FieldOrder, value: A, path: Path, depth: nat, s0: CleanState, run: V)
    requires Means(value, run)
    ensures Clean(order, value, path, depth, s0).0.Some? ==> Part(Clean(order, value, path, depth, s0).0.value, run)
    decreases value, 2, 0
  {
    var s := s0.(nodes := s0.nodes + 1);
    if s.nodes > MAX_NODES || depth > MAX_DEPTH { return; }
    match value {
      case Arr(items) => CleanItemsArePart(order, items, path, 0, depth, s, run.items);
      case Obj(fields, open) =>
        CleanFieldsArePart(order, value, order(fields), path, depth, if open then Leave(s, path + [Rest]) else s, run);
      case _ =>
    }
  }

  lemma {:induction false} CleanItemsArePart(order: FieldOrder, items: seq<A>, path: Path, index: nat, depth: nat,
      s: CleanState, run: seq<V>)
    requires Run(items, run)
    ensures PartItems(CleanItems(order, items, path, index, depth, s).0, run)
    decreases items, 1, 0
  {
    hide Part, Clean, Means;
    if items == [] { return; }
    var (head, s1) := Clean(order, items[0], path + [At(index)], depth + 1, s);
    var tail := CleanItems(order, items[1..], path, index + 1, depth, s1).0;
    if items[0].Unknown? {
      UnknownIsDropped(order, path + [At(index)], depth + 1, s);
      var n :| 0 <= n <= |run| && Run(items[1..], run[n..]);
      CleanItemsArePart(order, items[1..], path, index + 1, depth, s1, run[n..]);
      PartItemsLater(tail, run, n);
      assert [] + tail == tail;
    } else {
      CleanItemsArePart(order, items[1..], path, index + 1, depth, s1, run[1..]);
      CleanIsPart(order, items[0], path + [At(index)], depth + 1, s, run[0]);
      if head.Some? {
        assert ([head.value] + tail)[1..] == tail && run[0 + 1..] == run[1..];
      } else {
        PartItemsLater(tail, run, 1);
        assert [] + tail == tail;
      }
    }
  }

  lemma UnknownIsDropped(order: FieldOrder, path: Path, depth: nat, s: CleanState)
    ensures Clean(order, Unknown, path, depth, s).0 == None
  {
  }

  lemma {:induction false} CleanFieldsArePart(order: FieldOrder, value: A, keys: seq<string>, path: Path, depth: nat,
      s: CleanState, run: V)
    requires value.Obj? && Means(value, run)
    ensures forall k :: k in CleanFields(order, value, keys, path, depth, s).0 ==>
      k in run.fields && Part(CleanFields(order, value, keys, path, depth, s).0[k], run.fields[k])
    decreases value, 1, |keys|
  {
    hide Part, Clean, Run;
    if keys == [] { return; }
    if keys[0] !in value.fields { CleanFieldsArePart(order, value, keys[1..], path, depth, s, run); return; }
    var (child, s1) := Clean(order, value.fields[keys[0]], path + [Under(keys[0])], depth + 1, s);
    CleanFieldsArePart(order, value, keys[1..], path, depth, s1, run);
    if value.fields[keys[0]].Unknown? { UnknownIsDropped(order, path + [Under(keys[0])], depth + 1, s); }
    else { CleanIsPart(order, value.fields[keys[0]], path + [Under(keys[0])], depth + 1, s, run.fields[keys[0]]); }
  }

  // ----- with nothing unresolved it is the value of every run -----

  lemma {:induction false} CleanIsWhole(order: FieldOrder, value: A, path: Path, depth: nat, s0: CleanState, run: V)
    requires Enumerates(order) && Means(value, run)
    requires Clean(order, value, path, depth, s0).1.unresolved == s0.unresolved
    ensures Clean(order, value, path, depth, s0).0 == Some(run)
    decreases value, 2, 0
  {
    var s := s0.(nodes := s0.nodes + 1);
    if s.nodes > MAX_NODES || depth > MAX_DEPTH { return; }
    match value {
      case Arr(items) => CleanItemsAreWhole(order, items, path, 0, depth, s, run.items);
      case Obj(fields, open) =>
        var s1 := if open then Leave(s, path + [Rest]) else s;
        var cleaned := CleanFields(order, value, order(fields), path, depth, s1);
        assert s.unresolved <= s1.unresolved <= cleaned.1.unresolved;
        CleanFieldsAreWhole(order, value, order(fields), path, depth, s1, run);
        assert cleaned.0.Keys == fields.Keys == run.fields.Keys;
        assert cleaned.0 == run.fields;
      case _ =>
    }
  }

  lemma {:induction false} CleanItemsAreWhole(order: FieldOrder, items: seq<A>, path: Path, index: nat, depth: nat,
      s: CleanState, run: seq<V>)
    requires Enumerates(order) && Run(items, run)
    requires CleanItems(order, items, path, index, depth, s).1.unresolved == s.unresolved
    ensures CleanItems(order, items, path, index, depth, s).0 == run
    decreases items, 1, 0
  {
    hide Clean, Means, Enumerates;
    if items == [] { return; }
    var (head, s1) := Clean(order, items[0], path + [At(index)], depth + 1, s);
    var rest := CleanItems(order, items[1..], path, index + 1, depth, s1);
    assert s.unresolved <= s1.unresolved <= rest.1.unresolved;
    UnknownIsLeft(order, path + [At(index)], depth + 1, s);
    CleanIsWhole(order, items[0], path + [At(index)], depth + 1, s, run[0]);
    CleanItemsAreWhole(order, items[1..], path, index + 1, depth, s1, run[1..]);
    assert run == [run[0]] + run[1..];
  }

  lemma UnknownIsLeft(order: FieldOrder, path: Path, depth: nat, s: CleanState)
    ensures |Clean(order, Unknown, path, depth, s).1.unresolved| > |s.unresolved|
  {
  }

  lemma {:induction false} CleanFieldsAreWhole(order: FieldOrder, value: A, keys: seq<string>, path: Path, depth: nat,
      s: CleanState, run: V)
    requires Enumerates(order) && value.Obj? && Means(value, run)
    requires CleanFields(order, value, keys, path, depth, s).1.unresolved == s.unresolved
    ensures var cleaned := CleanFields(order, value, keys, path, depth, s).0;
      && (forall k :: k in cleaned <==> k in keys && k in value.fields)
      && (forall k :: k in cleaned ==> k in run.fields && cleaned[k] == run.fields[k])
    decreases value, 1, |keys|
  {
    hide Clean, Run, Enumerates;
    if keys == [] { return; }
    if keys[0] !in value.fields { CleanFieldsAreWhole(order, value, keys[1..], path, depth, s, run); return; }
    var (child, s1) := Clean(order, value.fields[keys[0]], path + [Under(keys[0])], depth + 1, s);
    assert s.unresolved <= s1.unresolved <= CleanFields(order, value, keys[1..], path, depth, s1).1.unresolved;
    UnknownIsLeft(order, path + [Under(keys[0])], depth + 1, s);
    CleanIsWhole(order, value.fields[keys[0]], path + [Under(keys[0])], depth + 1, s, run.fields[keys[0]]);
    CleanFieldsAreWhole(order, value, keys[1..], path, depth, s1, run);
  }

  // ----- the inspection as a whole -----

  /** `value`, when there is one, and the unresolved paths. `invalid` is the source's verdict that
      the module cannot be read statically at all. */
  function Inspect(order: FieldOrder, env: Env, exported: Expr, invalid: bool): (Option<V>, seq<Path>) {
    var answer := if invalid then Unknown else Eval(env, FRESH, exported, 0).0;
    var (cleaned, s) := Clean(order, answer, [], 0, CleanState(0, []));
    (if cleaned.Some? && (cleaned.value.VObj? || cleaned.value.VArr?) then cleaned else None, s.unresolved)
  }

  /** The reported value is part of the exported value of every run, and equals it whenever the
      inspection reports nothing unresolved. */
  lemma {:induction false} InspectionIsSound(order: FieldOrder, env: Env, w: World, exported: Expr, invalid: bool)
    requires Enumerates(order) && Consistent(env, w)
    requires GuardsHold(env, w, Eval(env, FRESH, exported, 0).1.obligations)
    ensures var (value, unresolved) := Inspect(order, env, exported, invalid);
      && (value.Some? ==> Part(value.value, Value(env, w, exported)))
      && (value.Some? && unresolved == [] ==> value.value == Value(env, w, exported))
  {
    hide Clean, Eval, Consistent, GuardsHold, Part;
    EvalIsSound(env, w, FRESH, exported, 0);
    var answer := if invalid then Unknown else Eval(env, FRESH, exported, 0).0;
    var (cleaned, s) := Clean(order, answer, [], 0, CleanState(0, []));
    CleanIsPart(order, answer, [], 0, CleanState(0, []), Value(env, w, exported));
    if s.unresolved == [] { CleanIsWhole(order, answer, [], 0, CleanState(0, []), Value(env, w, exported)); }
  }
}
