/** When tracing records no reason for doubt, its answer is exact: it visited precisely the scripts
    that delegation reaches, that graph has no cycle, and "pass" means that some reachable command is
    an accepted, declared runner of the purpose. */
module ScriptGraphSafety {
  import opened Text
  import opened ShellWords
  import opened ScriptGraphModel

  // ----- what events mean, whatever the depth they were met at -----

  function Targets(events: seq<Event>): set<Node> {
    set e | e in events && e.Delegate? :: e.node
  }

  function Runs(events: seq<Event>): set<Execution> {
    set e | e in events && e.Execute? :: e.execution
  }

  predicate Clean(events: seq<Event>) {
    forall e :: e in events ==> !e.Object?
  }

  predicate SameMeaning(a: seq<Event>, b: seq<Event>) {
    Clean(a) && Clean(b) && Targets(a) == Targets(b) && Runs(a) == Runs(b)
  }

  lemma {:induction false} SameMeaningAppend(a: seq<Event>, a': seq<Event>, b: seq<Event>, b': seq<Event>)
    requires SameMeaning(a, a') && SameMeaning(b, b')
    ensures SameMeaning(a + b, a' + b')
  {
    assert Targets(a + b) == Targets(a) + Targets(b) && Targets(a' + b') == Targets(a') + Targets(b');
    assert Runs(a + b) == Runs(a) + Runs(b) && Runs(a' + b') == Runs(a') + Runs(b');
  }

  lemma {:induction false} CleanParts(a: seq<Event>, b: seq<Event>)
    requires Clean(a + b)
    ensures Clean(a) && Clean(b)
  {
    assert forall e :: e in a ==> e in a + b;
    assert forall e :: e in b ==> e in a + b;
  }

  lemma CleanHead(events: seq<Event>)
    requires Clean(events)
    ensures events != [] ==> !events[0].Object?
  {
  }

  lemma {:induction false} EventsShallower(env: Env, member: Package, script: string, tokens: seq<string>, depth: nat,
      less: nat)
    requires less <= depth && Clean(Events(env, member, script, tokens, depth))
    ensures SameMeaning(Events(env, member, script, tokens, depth), Events(env, member, script, tokens, less))
    decreases |tokens|, 0, 0
  {
    hide ReadPrefix, TurboEvents, RunEvents, RunnerOf, DepthBudget, StartsWith, SameMeaning, Targets, Runs;
    CleanHead(Events(env, member, script, tokens, depth));
    if depth > MAX_DEPTH { assert false; }
    if tokens == [] || tokens[0] in ["echo", "printf", "true"] { SameMeaningRefl([]); return; }
    var executable, rest := tokens[0], tokens[1..];
    if executable in ["npm", "pnpm", "yarn"] {
      var prefix := ReadPrefix(env, executable, [member], rest);
      if prefix.BadSelector? { SameMeaningRefl([Object(BAD_SELECTOR)]); return; }
      if prefix.exec { EachTargetShallower(env, prefix.targets, script, prefix.rest, depth + 1, less + 1); return; }
      var call := if prefix.rest != [] && prefix.rest[0] in ["run", "run-script"] then prefix.rest[1..] else prefix.rest;
      if call == [] || StartsWith(call[0], "-") {
        SameMeaningRefl([Object("Package-manager invocation is unsupported.")]);
        return;
      }
      EachTaskShallower(env, prefix.targets, script, executable, call, depth, less);
    } else if executable == "turbo" {
      TurboShallower(env, member, rest, depth, less);
    } else {
      SameMeaningRefl(RunEvents(env, member, script, executable, rest));
    }
  }

  lemma SameMeaningRefl(a: seq<Event>)
    requires Clean(a)
    ensures SameMeaning(a, a)
  {
  }

  lemma {:induction false} EachTargetShallower(env: Env, targets: seq<Package>, script: string, tokens: seq<string>,
      depth: nat, less: nat)
    requires less <= depth && Clean(EachTarget(env, targets, script, tokens, depth))
    ensures SameMeaning(EachTarget(env, targets, script, tokens, depth), EachTarget(env, targets, script, tokens, less))
    decreases |tokens|, 1, |targets|
  {
    hide Events;
    if targets == [] { return; }
    CleanParts(Events(env, targets[0], script, tokens, depth), EachTarget(env, targets[1..], script, tokens, depth));
    EventsShallower(env, targets[0], script, tokens, depth, less);
    EachTargetShallower(env, targets[1..], script, tokens, depth, less);
    SameMeaningAppend(
      Events(env, targets[0], script, tokens, depth), Events(env, targets[0], script, tokens, less),
      EachTarget(env, targets[1..], script, tokens, depth), EachTarget(env, targets[1..], script, tokens, less));
  }

  lemma {:induction false} TaskShallower(env: Env, target: Package, script: string, executable: string,
      call: seq<string>, depth: nat, less: nat)
    requires call != [] && less <= depth <= MAX_DEPTH && Clean(TaskEvents(env, target, script, executable, call, depth))
    ensures SameMeaning(TaskEvents(env, target, script, executable, call, depth),
      TaskEvents(env, target, script, executable, call, less))
    decreases |call|, 0, 1
  {
    hide Events, RunnerOf, HasScript;
    CleanHead(TaskEvents(env, target, script, executable, call, depth));
    if !HasScript(target, call[0]) { EventsShallower(env, target, script, call, depth + 1, less + 1); }
  }

  lemma {:induction false} EachTaskShallower(env: Env, targets: seq<Package>, script: string, executable: string,
      call: seq<string>, depth: nat, less: nat)
    requires call != [] && less <= depth <= MAX_DEPTH && Clean(EachTask(env, targets, script, executable, call, depth))
    ensures SameMeaning(EachTask(env, targets, script, executable, call, depth),
      EachTask(env, targets, script, executable, call, less))
    decreases |call|, 1, |targets|
  {
    hide TaskEvents;
    if targets == [] { return; }
    CleanParts(TaskEvents(env, targets[0], script, executable, call, depth),
      EachTask(env, targets[1..], script, executable, call, depth));
    TaskShallower(env, targets[0], script, executable, call, depth, less);
    EachTaskShallower(env, targets[1..], script, executable, call, depth, less);
    SameMeaningAppend(
      TaskEvents(env, targets[0], script, executable, call, depth), TaskEvents(env, targets[0], script, executable, call, less),
      EachTask(env, targets[1..], script, executable, call, depth), EachTask(env, targets[1..], script, executable,
        call, less));
  }

  lemma {:induction false} DelegatesOf(targets: seq<Package>, task: string, depth: nat)
    requires depth <= 17
    ensures Clean(DelegateAll(targets, task, depth)) && Runs(DelegateAll(targets, task, depth)) == {}
    ensures Targets(DelegateAll(targets, task, depth)) == set p | p in targets :: Node(p, task)
    decreases |targets|
  {
    if targets != [] {
      DelegatesOf(targets[1..], task, depth);
      var first := [Delegate(Node(targets[0], task), depth)];
      assert Targets(first + DelegateAll(targets[1..], task, depth))
        == Targets(first) + Targets(DelegateAll(targets[1..], task, depth));
      assert targets == [targets[0]] + targets[1..];
    }
  }

  lemma {:induction false} TurboShallower(env: Env, member: Package, tokens: seq<string>, depth: nat, less: nat)
    requires less <= depth <= MAX_DEPTH && Clean(TurboEvents(env, member, tokens, depth))
    ensures SameMeaning(TurboEvents(env, member, tokens, depth), TurboEvents(env, member, tokens, less))
  {
    hide DelegateAll, DeclaredTool, NarrowTurbo, Filter;
    if !DeclaredTool(env, member, "turbo") || tokens == [] || tokens[0] != "run" || |tokens| == 1 || StartsWith(tokens[1], "-") { return; }
    var task := tokens[1];
    var targets := Filter(env.packages, (p: Package) => p.path != Some(PathOf(member)) && HasScript(p, task));
    match NarrowTurbo(env, targets, tokens[2..]) {
      case Refused(reason) =>
      case Narrowed(chosen) =>
        if chosen != [] {
          DelegatesOf(chosen, task, depth + 1);
          DelegatesOf(chosen, task, less + 1);
        }
    }
  }

  lemma {:induction false} CommandsShallower(env: Env, node: Node, commands: seq<Command>, depth: nat)
    requires depth <= MAX_DEPTH && Clean(CommandsEvents(env, node, commands, depth))
    ensures SameMeaning(CommandsEvents(env, node, commands, depth), CommandsEvents(env, node, commands, 0))
    decreases |commands|
  {
    hide Events;
    if commands == [] { return; }
    var first := Events(env, node.member, node.script, commands[0], depth);
    CleanParts(first, CommandsEvents(env, node, commands[1..], depth));
    EventsShallower(env, node.member, node.script, commands[0], depth, 0);
    CommandsShallower(env, node, commands[1..], depth);
    SameMeaningAppend(first, Events(env, node.member, node.script, commands[0], 0),
      CommandsEvents(env, node, commands[1..], depth), CommandsEvents(env, node, commands[1..], 0));
  }

  /** Depth matters only for the bound: met without doubt, a script means the same anywhere. */
  lemma {:induction false} DepthDoesNotMatter(env: Env, node: Node, depth: nat)
    requires depth <= MAX_DEPTH && Clean(NodeEvents(env, node, depth))
    ensures SameMeaning(NodeEvents(env, node, depth), NodeEvents(env, node, 0))
  {
    hide CommandsEvents, Parse;
    var declaration := FindScript(node.member.scripts, node.script);
    if declaration.Some? && Parse(declaration.value.command).Some? {
      CommandsShallower(env, node, Parse(declaration.value.command).value, depth);
    }
  }

  // ----- the delegation graph -----

  function Successors(env: Env, node: Node): set<Node> {
    Targets(NodeEvents(env, node, 0))
  }

  function CommandRuns(env: Env, node: Node): set<Execution> {
    Runs(NodeEvents(env, node, 0))
  }

  predicate IsPath(env: Env, path: seq<Node>) {
    path != [] && forall i :: 0 <= i < |path| - 1 ==> path[i + 1] in Successors(env, path[i])
  }

  ghost predicate Reachable(env: Env, roots: set<Node>, node: Node) {
    exists path :: IsPath(env, path) && path[0] in roots && path[|path| - 1] == node
  }

  lemma ReachableStep(env: Env, roots: set<Node>, node: Node, next: Node)
    requires Reachable(env, roots, node) && next in Successors(env, node)
    ensures Reachable(env, roots, next)
  {
    hide Successors;
    var path :| IsPath(env, path) && path[0] in roots && path[|path| - 1] == node;
    assert IsPath(env, path + [next]);
    assert (path + [next])[0] in roots;
  }

  /** No two scripts that delegation reaches share their `packagePath:script` key. */
  ghost predicate Faithful(env: Env, roots: set<Node>) {
    forall a, b :: Reachable(env, roots, a) && Reachable(env, roots, b) && Key(a) == Key(b) ==> a == b
  }

  // ----- what the walk keeps while no doubt is recorded -----

  ghost predicate Good(env: Env, roots: set<Node>, w: Walk) {
    && (forall n :: n in w.order ==> n in w.visited && Key(n) !in w.active)
    && (forall n :: n in w.visited ==> n in w.order || Key(n) in w.active)
    && (forall n :: n in w.visited ==> Reachable(env, roots, n))
    && Closed(env, w.order)
    && (forall n, x :: n in w.order && x in CommandRuns(env, n) ==> x in w.executions)
    && (forall x :: x in w.executions ==> exists n :: n in w.visited && x in CommandRuns(env, n))
    && (forall n :: n in w.visited ==> Doubtless(env, n))
  }

  predicate Doubtless(env: Env, node: Node) {
    Clean(NodeEvents(env, node, 0))
  }

  /** Every successor of a finished script finished before it. */
  predicate Closed(env: Env, order: seq<Node>) {
    forall i, t :: 0 <= i < |order| && t in Successors(env, order[i]) ==> t in order[..i]
  }

  predicate Extends(w: Walk, w': Walk) {
    && w'.active == w.active
    && (forall n :: n in w.visited ==> n in w'.visited)
    && (forall n :: n in w.order ==> n in w'.order)
    && (forall x :: x in w.executions ==> x in w'.executions)
  }

  lemma {:induction false} DoubtStays(env: Env, w: Walk, events: seq<Event>)
    requires Process(env, w, events).reasons == []
    ensures w.reasons == [] && Clean(events)
    decreases DepthBudget(events), |events| + 1
  {
    if events == [] { return; }
    match events[0] {
      case Delegate(node, depth) =>
        DoubtStays(env, Invoke(env, w, node, depth), events[1..]);
        DoubtStaysInvoke(env, w, node, depth);
      case Execute(execution) => DoubtStays(env, w.(executions := w.executions + [execution]), events[1..]);
      case Object(reason) => DoubtStays(env, AddReason(w, reason), events[1..]);
    }
  }

  lemma {:induction false} DoubtStaysInvoke(env: Env, w: Walk, node: Node, depth: nat)
    requires Invoke(env, w, node, depth).reasons == []
    ensures w.reasons == []
    decreases if depth <= 18 then 18 - depth else 0, 0
  {
    if !(depth > MAX_DEPTH || Key(node) in w.active || |w.visited| >= MAX_VISITED) && Key(node) !in Keys(w.visited) {
      DoubtStays(env, Enter(w, node), NodeEvents(env, node, depth));
    }
  }

  lemma {:induction false} InvokeIsGood(env: Env, roots: set<Node>, w: Walk, node: Node, depth: nat)
    requires Faithful(env, roots) && Good(env, roots, w) && Reachable(env, roots, node)
    requires Invoke(env, w, node, depth).reasons == []
    ensures Good(env, roots, Invoke(env, w, node, depth)) && Extends(w, Invoke(env, w, node, depth))
    ensures node in Invoke(env, w, node, depth).order
    decreases if depth <= 18 then 18 - depth else 0, 0
  {
    hide NodeEvents, Process, Successors, CommandRuns, Reachable, Doubtless;
    DoubtStaysInvoke(env, w, node, depth);
    if Key(node) in Keys(w.visited) {
      var i :| 0 <= i < |w.visited| && Keys(w.visited)[i] == Key(node);
      assert w.visited[i] == node;
      return;
    }
    assert node !in w.visited by { KeyOfMember(w.visited, node); }
    var events := NodeEvents(env, node, depth);
    var inner := Process(env, Enter(w, node), events);
    DoubtStays(env, Enter(w, node), events);
    DepthDoesNotMatter(env, node, depth);
    MeaningAtDepth(env, node, depth);
    EnterIsGood(env, roots, w, node);
    ProcessIsGood(env, roots, Enter(w, node), events, node);
    LeaveIsGood(env, roots, inner, node, events, depth);
  }

  lemma MeaningAtDepth(env: Env, node: Node, depth: nat)
    requires depth <= MAX_DEPTH && SameMeaning(NodeEvents(env, node, depth), NodeEvents(env, node, 0))
    ensures Targets(NodeEvents(env, node, depth)) == Successors(env, node)
    ensures Runs(NodeEvents(env, node, depth)) == CommandRuns(env, node)
    ensures Doubtless(env, node)
  {
  }

  lemma KeyOfMember(nodes: seq<Node>, node: Node)
    ensures node in nodes ==> Key(node) in Keys(nodes)
  {
    if node in nodes {
      var i :| 0 <= i < |nodes| && nodes[i] == node;
      assert Keys(nodes)[i] == Key(node);
    }
  }

  lemma {:induction false} EnterIsGood(env: Env, roots: set<Node>, w: Walk, node: Node)
    requires Faithful(env, roots) && Good(env, roots, w) && Reachable(env, roots, node) && node !in w.visited
    requires Doubtless(env, node)
    ensures Good(env, roots, Enter(w, node))
  {
    hide Successors, CommandRuns, Reachable, Doubtless;
  }

  lemma {:induction false} LeaveIsGood(env: Env, roots: set<Node>, w: Walk, node: Node, events: seq<Event>, depth: nat)
    requires Good(env, roots, w) && Faithful(env, roots)
    requires node in w.visited && Key(node) in w.active
    requires forall t :: t in Successors(env, node) ==> t in w.order
    requires forall x :: x in CommandRuns(env, node) ==> x in w.executions
    ensures Good(env, roots, Leave(w, node))
  {
    hide Successors, CommandRuns, Reachable, Doubtless;
    var left := Leave(w, node);
    forall n | n in left.visited ensures n in left.order || Key(n) in left.active {
      if n !in w.order && Key(n) == Key(node) { assert n == node; }
    }
    forall i, t | 0 <= i < |left.order| && t in Successors(env, left.order[i]) ensures t in left.order[..i] {
      if i < |w.order| { assert left.order[..i] == w.order[..i]; }
      else { assert left.order[..i] == w.order; }
    }
  }

  lemma {:induction false} ProcessIsGood(env: Env, roots: set<Node>, w: Walk, events: seq<Event>, owner: Node)
    requires Faithful(env, roots) && Good(env, roots, w) && owner in w.visited
    requires Targets(events) <= Successors(env, owner) && Runs(events) <= CommandRuns(env, owner)
    requires Process(env, w, events).reasons == []
    ensures Good(env, roots, Process(env, w, events)) && Extends(w, Process(env, w, events))
    ensures forall t :: t in Targets(events) ==> t in Process(env, w, events).order
    ensures forall x :: x in Runs(events) ==> x in Process(env, w, events).executions
    decreases DepthBudget(events), |events| + 1
  {
    hide Successors, CommandRuns, Reachable, Invoke, Faithful, Doubtless;
    DoubtStays(env, w, events);
    if events == [] { return; }
    assert events == [events[0]] + events[1..];
    var rest := events[1..];
    assert Targets(rest) <= Targets(events) && Runs(rest) <= Runs(events);
    match events[0] {
      case Delegate(node, depth) =>
        assert node in Targets(events);
        ReachableStep(env, roots, owner, node);
        var next := Invoke(env, w, node, depth);
        DoubtStays(env, next, rest);
        InvokeIsGood(env, roots, w, node, depth);
        ProcessIsGood(env, roots, next, rest, owner);
      case Execute(execution) =>
        assert execution in Runs(events);
        var next := w.(executions := w.executions + [execution]);
        assert Good(env, roots, next);
        ProcessIsGood(env, roots, next, rest, owner);
      case Object(reason) => assert false;
    }
  }

  /** The roots are processed like the events of one script, except that they need no owner. */
  lemma {:induction false} RootsAreGood(env: Env, all: set<Node>, w: Walk, roots: seq<Node>)
    requires Faithful(env, all) && Good(env, all, w) && (forall n :: n in roots ==> n in all)
    requires Process(env, w, DelegateRoots(roots)).reasons == []
    ensures Good(env, all, Process(env, w, DelegateRoots(roots))) && Extends(w, Process(env, w, DelegateRoots(roots)))
    ensures forall n :: n in roots ==> n in Process(env, w, DelegateRoots(roots)).order
    decreases |roots|
  {
    hide Successors, CommandRuns, Invoke, Faithful, Doubtless;
    if roots == [] { return; }
    assert IsPath(env, [roots[0]]) && [roots[0]][0] in all;
    var next := Invoke(env, w, roots[0], 0);
    assert Process(env, w, DelegateRoots(roots)) == Process(env, next, DelegateRoots(roots[1..]));
    DoubtStays(env, next, DelegateRoots(roots[1..]));
    InvokeIsGood(env, all, w, roots[0], 0);
    RootsAreGood(env, all, next, roots[1..]);
  }

  // ----- the verdict is exact -----

  lemma {:induction false} ClosedHoldsPaths(env: Env, order: seq<Node>, path: seq<Node>)
    requires Closed(env, order) && IsPath(env, path) && path[0] in order
    ensures forall n :: n in path ==> n in order
    decreases |path|
  {
    hide Successors;
    if |path| > 1 {
      var i :| 0 <= i < |order| && order[i] == path[0];
      assert path[1] in Successors(env, path[0]);
      assert forall k :: 0 <= k < |path| - 2 ==> path[1..][k + 1] in Successors(env, path[1..][k]);
      ClosedHoldsPaths(env, order, path[1..]);
      assert path == [path[0]] + path[1..];
    }
  }

  function IndexOf(order: seq<Node>, node: Node): (i: nat)
    requires node in order
    ensures i < |order| && order[i] == node && forall j :: 0 <= j < i ==> order[j] != node
  {
    if order[0] == node then 0 else 1 + IndexOf(order[1..], node)
  }

  /** Along a path of finished scripts, every step goes to one that finished earlier. */
  lemma {:induction false} PathsGoBack(env: Env, order: seq<Node>, path: seq<Node>)
    requires Closed(env, order) && IsPath(env, path) && path[0] in order && |path| > 1
    ensures path[|path| - 1] in order && IndexOf(order, path[|path| - 1]) < IndexOf(order, path[0])
    decreases |path|
  {
    hide Successors;
    var i := IndexOf(order, path[0]);
    assert path[1] in Successors(env, path[0]) && path[1] in order[..i];
    if |path| > 2 {
      assert forall k :: 0 <= k < |path| - 2 ==> path[1..][k + 1] in Successors(env, path[1..][k]);
      PathsGoBack(env, order, path[1..]);
    }
  }

  ghost predicate Acyclic(env: Env, roots: set<Node>) {
    forall path :: IsPath(env, path) && |path| > 1 && Reachable(env, roots, path[0]) ==> path[|path| - 1] != path[0]
  }

  function RootSet(project: Package, purpose: Purpose): set<Node> {
    set n | n in Roots(project, project.scripts, purpose)
  }

  /** With nothing in doubt and no two reachable scripts under one key: the visited scripts are
      exactly the reachable ones, delegation has no cycle, and the answer is "pass" exactly when some
      reachable command runs an accepted tool for the purpose, "fail" otherwise. */
  lemma {:induction false} TraceIsExact(env: Env, project: Package, purpose: Purpose)
    requires TraceOf(env, project, purpose).reasons == []
    requires Faithful(env, RootSet(project, purpose))
    ensures forall n :: n in TraceOf(env, project, purpose).visited <==> Reachable(env, RootSet(project, purpose), n)
    ensures Acyclic(env, RootSet(project, purpose))
    ensures Verdict(TraceOf(env, project, purpose), purpose) == Pass <==>
      exists n, x :: Reachable(env, RootSet(project, purpose), n) && x in CommandRuns(env, n) && x.purpose == purpose
    ensures Verdict(TraceOf(env, project, purpose), purpose) != Unknown
    ensures forall n :: Reachable(env, RootSet(project, purpose), n) ==> Doubtless(env, n)
    ensures forall x :: x in TraceOf(env, project, purpose).executions <==>
      exists n :: Reachable(env, RootSet(project, purpose), n) && x in CommandRuns(env, n)
  {
    hide Successors, CommandRuns, Process, Roots, DelegateRoots, Faithful, Doubtless;
    var roots := RootSet(project, purpose);
    var w := TraceOf(env, project, purpose);
    RootsAreGood(env, roots, START_WALK, Roots(project, project.scripts, purpose));
    assert w.active == {};
    forall n ensures n in w.visited <==> Reachable(env, roots, n) {
      if Reachable(env, roots, n) {
        var path :| IsPath(env, path) && path[0] in roots && path[|path| - 1] == n;
        ClosedHoldsPaths(env, w.order, path);
        assert path[|path| - 1] in path;
      }
    }
    forall path | IsPath(env, path) && |path| > 1 && Reachable(env, roots, path[0]) ensures path[|path| - 1] != path[0] {
      assert path[0] in w.visited;
      PathsGoBack(env, w.order, path);
    }
  }

  // ----- the hypothesis on keys is exactly what is needed -----

  predicate DistinctKeys(nodes: seq<Node>) {
    forall i, j :: 0 <= i < j < |nodes| ==> Key(nodes[i]) != Key(nodes[j])
  }

  lemma {:induction false} InvokeKeepsDistinct(env: Env, w: Walk, node: Node, depth: nat)
    requires DistinctKeys(w.visited) && |w.visited| <= MAX_VISITED
    ensures DistinctKeys(Invoke(env, w, node, depth).visited) && |Invoke(env, w, node, depth).visited| <= MAX_VISITED
    decreases if depth <= 18 then 18 - depth else 0, 0
  {
    hide Process, NodeEvents;
    if !(depth > MAX_DEPTH || Key(node) in w.active || |w.visited| >= MAX_VISITED) && Key(node) !in Keys(w.visited) {
      assert DistinctKeys(Enter(w, node).visited) by {
        forall i | 0 <= i < |w.visited| ensures Key(w.visited[i]) != Key(node) { assert Keys(w.visited)[i] in Keys(w.visited); }
      }
      ProcessKeepsDistinct(env, Enter(w, node), NodeEvents(env, node, depth));
    }
  }

  lemma {:induction false} ProcessKeepsDistinct(env: Env, w: Walk, events: seq<Event>)
    requires DistinctKeys(w.visited) && |w.visited| <= MAX_VISITED
    ensures DistinctKeys(Process(env, w, events).visited) && |Process(env, w, events).visited| <= MAX_VISITED
    decreases DepthBudget(events), |events| + 1
  {
    hide Invoke;
    if events == [] { return; }
    match events[0] {
      case Delegate(node, depth) =>
        InvokeKeepsDistinct(env, w, node, depth);
        ProcessKeepsDistinct(env, Invoke(env, w, node, depth), events[1..]);
      case Execute(execution) => ProcessKeepsDistinct(env, w.(executions := w.executions + [execution]), events[1..]);
      case Object(reason) => ProcessKeepsDistinct(env, AddReason(w, reason), events[1..]);
    }
  }

  /** Tracing never visits more than its bound, nor two scripts under one key; so, with nothing in
      doubt, it visits exactly the reachable scripts if and only if their keys tell them apart. */
  lemma {:induction false} ExactIffKeysTellApart(env: Env, project: Package, purpose: Purpose)
    ensures |TraceOf(env, project, purpose).visited| <= MAX_VISITED
    ensures TraceOf(env, project, purpose).reasons == [] ==>
      ((forall n :: n in TraceOf(env, project, purpose).visited <==> Reachable(env, RootSet(project, purpose), n))
        <==> Faithful(env, RootSet(project, purpose)))
  {
    hide Process, Reachable, Roots, DelegateRoots;
    var w := TraceOf(env, project, purpose);
    var roots := RootSet(project, purpose);
    ProcessKeepsDistinct(env, START_WALK, DelegateRoots(Roots(project, project.scripts, purpose)));
    if w.reasons == [] && Faithful(env, roots) { TraceIsExact(env, project, purpose); }
    if forall n :: n in w.visited <==> Reachable(env, roots, n) {
      forall a, b | Reachable(env, roots, a) && Reachable(env, roots, b) && Key(a) == Key(b) ensures a == b {
        var i :| 0 <= i < |w.visited| && w.visited[i] == a;
        var j :| 0 <= j < |w.visited| && w.visited[j] == b;
      }
    }
  }

  // ----- what counts as running a tool -----

  /** An execution tracing accepts: a known runner of that purpose, declared by the package or an
      ancestor, or Node's own test runner; neither asked for information nor told to run nothing. */
  predicate Accepted(env: Env, x: Execution) {
    && !OnlyInforms(x.executable, x.arguments) && !RunsNothing(x.executable, x.arguments)
    && if RunnerOf(x.executable).Some?
       then x.dependency == Some(RunnerOf(x.executable).value.dependency)
         && x.purpose == RunnerOf(x.executable).value.purpose
         && exists i :: 0 <= i < |env.packages| && Declares(env.packages[i], x.packagePath, x.dependency.value)
       else x.dependency == None && IsNodeTest(x.executable, x.arguments) && x.purpose == Test
  }

  /** A package of the workspace, or the one the command stands in. */
  predicate Known(env: Env, member: Package, p: Package) {
    p == member || p in env.packages
  }

  /** What tracing may rely on for one event. */
  predicate EventOk(env: Env, member: Package, e: Event) {
    && (e.Execute? ==> Accepted(env, e.execution))
    && (e.Delegate? ==> HasScript(e.node.member, e.node.script) && Known(env, member, e.node.member))
  }

  predicate EventsOk(env: Env, member: Package, events: seq<Event>) {
    forall e :: e in events ==> EventOk(env, member, e)
  }

  lemma {:induction false} PrefixTargetsAreKnown(env: Env, executable: string, member: Package, targets: seq<Package>,
      tokens: seq<string>)
    requires forall p :: p in targets ==> Known(env, member, p)
    ensures ReadPrefix(env, executable, targets, tokens).Prefix? ==>
      forall p :: p in ReadPrefix(env, executable, targets, tokens).targets ==> Known(env, member, p)
    decreases |tokens|
  {
    hide Filter, Select;
    if tokens == [] { return; }
    var token := tokens[0];
    if token == "exec" { return; }
    if token in ["-r", "--recursive", "--workspaces"] {
      PrefixTargetsAreKnown(env, executable, member, Filter(env.packages, (p: Package) => p.path != Some(".")),
        tokens[1..]);
    } else if token in ["--filter", "--workspace"] || (executable == "yarn" && token == "workspace") {
      if |tokens| > 1 && Select(env, tokens[1]).Some? {
        SelectedAreKnown(env, tokens[1]);
        PrefixTargetsAreKnown(env, executable, member, Select(env, tokens[1]).value, tokens[2..]);
      }
    } else if StartsWith(token, "--workspace=") || StartsWith(token, "--filter=") {
      if Select(env, AfterEquals(token)).Some? {
        SelectedAreKnown(env, AfterEquals(token));
        PrefixTargetsAreKnown(env, executable, member, Select(env, AfterEquals(token)).value, tokens[1..]);
      }
    }
  }

  lemma SelectedAreKnown(env: Env, selector: string)
    ensures Select(env, selector).Some? ==> forall p :: p in Select(env, selector).value ==> p in env.packages
  {
  }

  lemma {:induction false} EventsOkElsewhere(env: Env, member: Package, target: Package, events: seq<Event>)
    requires EventsOk(env, target, events) && Known(env, member, target)
    ensures EventsOk(env, member, events)
  {
    hide Accepted, HasScript;
  }

  lemma {:induction false} EventsAreAccepted(env: Env, member: Package, script: string, tokens: seq<string>, depth: nat)
    ensures EventsOk(env, member, Events(env, member, script, tokens, depth))
    decreases |tokens|, 0, 0
  {
    hide ReadPrefix, RunnerOf, OnlyInforms, DeclaredTool, DepthBudget, Accepted, TurboEvents, RunEvents;
    if depth <= MAX_DEPTH && tokens != [] { PrefixTargetsAreKnown(env, tokens[0], member, [member], tokens[1..]); }
    if depth > MAX_DEPTH || tokens == [] { return; }
    var executable, rest := tokens[0], tokens[1..];
    if executable in ["echo", "printf", "true"] { return; }
    if executable in ["npm", "pnpm", "yarn"] {
      var prefix := ReadPrefix(env, executable, [member], rest);
      if prefix.BadSelector? { return; }
      if prefix.exec { EachTargetAccepted(env, member, prefix.targets, script, prefix.rest, depth + 1); return; }
      var call := if prefix.rest != [] && prefix.rest[0] in ["run", "run-script"] then prefix.rest[1..] else prefix.rest;
      if !(call == [] || StartsWith(call[0], "-")) { EachTaskAccepted(env, member, prefix.targets, script, executable, call, depth); }
    } else if executable == "turbo" { TurboAccepted(env, member, rest, depth); }
    else { RunAccepted(env, member, script, executable, rest); }
  }

  lemma RunAccepted(env: Env, member: Package, script: string, executable: string, arguments: seq<string>)
    ensures EventsOk(env, member, RunEvents(env, member, script, executable, arguments))
  {
    hide OnlyInforms, RunsNothing;
  }

  lemma {:induction false} TurboAccepted(env: Env, member: Package, tokens: seq<string>, depth: nat)
    requires depth <= MAX_DEPTH
    ensures EventsOk(env, member, TurboEvents(env, member, tokens, depth))
  {
    hide DelegateAll, DeclaredTool, NarrowTurbo, Filter, HasScript;
    if !DeclaredTool(env, member, "turbo") || tokens == [] || tokens[0] != "run" || |tokens| == 1 || StartsWith(tokens[1], "-") { return; }
    var task := tokens[1];
    var targets := Filter(env.packages, (p: Package) => p.path != Some(PathOf(member)) && HasScript(p, task));
    NarrowedAreTargets(env, targets, tokens[2..]);
    match NarrowTurbo(env, targets, tokens[2..]) {
      case Refused(reason) =>
      case Narrowed(chosen) =>
        if chosen != [] {
          DelegatesOf(chosen, task, depth + 1);
          forall e | e in TurboEvents(env, member, tokens, depth) ensures EventOk(env, member, e) {
            assert e.Delegate? by { DelegatesOnly(chosen, task, depth + 1); }
            assert e.node in Targets(DelegateAll(chosen, task, depth + 1));
          }
        }
    }
  }

  lemma DelegatesOnly(targets: seq<Package>, task: string, depth: nat)
    requires depth <= 17
    ensures forall e :: e in DelegateAll(targets, task, depth) ==> e.Delegate?
  {
  }

  lemma NarrowedAreTargets(env: Env, targets: seq<Package>, tokens: seq<string>)
    ensures NarrowTurbo(env, targets, tokens).Narrowed? ==> forall p :: p in NarrowTurbo(env, targets, tokens).targets ==> p in targets
    decreases |tokens|
  {
    hide Select, StartsWith;
  }

  lemma {:induction false} EachTargetAccepted(env: Env, member: Package, targets: seq<Package>, script: string,
      tokens: seq<string>, depth: nat)
    requires forall p :: p in targets ==> Known(env, member, p)
    ensures EventsOk(env, member, EachTarget(env, targets, script, tokens, depth))
    decreases |tokens|, 1, |targets|
  {
    hide Events, Accepted, HasScript;
    if targets != [] {
      EventsAreAccepted(env, targets[0], script, tokens, depth);
      EventsOkElsewhere(env, member, targets[0], Events(env, targets[0], script, tokens, depth));
      EachTargetAccepted(env, member, targets[1..], script, tokens, depth);
    }
  }

  lemma {:induction false} TaskAccepted(env: Env, member: Package, target: Package, script: string, executable: string,
      call: seq<string>, depth: nat)
    requires call != [] && depth <= MAX_DEPTH && Known(env, member, target)
    ensures EventsOk(env, member, TaskEvents(env, target, script, executable, call, depth))
    decreases |call|, 0, 1
  {
    hide Events, EventOk, EventsOk, HasScript, RunnerOf, Known, DepthBudget;
    if HasScript(target, call[0]) {
      if |call| == 1 { DelegateIsOk(env, member, Node(target, call[0]), depth + 1); }
      else { ObjectIsOk(env, member, "Forwarded script arguments may override the delegated execution path."); }
    } else if executable != "npm" && RunnerOf(call[0]).Some? {
      EventsAreAccepted(env, target, script, call, depth + 1);
      EventsOkElsewhere(env, member, target, Events(env, target, script, call, depth + 1));
    } else { ObjectIsOk(env, member, "A delegated script or executable is unavailable."); }
  }

  lemma DelegateIsOk(env: Env, member: Package, node: Node, depth: nat)
    requires HasScript(node.member, node.script) && Known(env, member, node.member)
    ensures EventsOk(env, member, [Delegate(node, depth)])
  {
    hide HasScript, Known, Accepted;
  }

  lemma ObjectIsOk(env: Env, member: Package, reason: string)
    ensures EventsOk(env, member, [Object(reason)])
  {
    hide Accepted;
  }

  lemma {:induction false} EachTaskAccepted(env: Env, member: Package, targets: seq<Package>, script: string,
      executable: string, call: seq<string>, depth: nat)
    requires call != [] && depth <= MAX_DEPTH
    requires forall p :: p in targets ==> Known(env, member, p)
    ensures EventsOk(env, member, EachTask(env, targets, script, executable, call, depth))
    decreases |call|, 1, |targets|
  {
    hide TaskEvents, EventOk, Known;
    if targets != [] {
      assert Known(env, member, targets[0]);
      TaskAccepted(env, member, targets[0], script, executable, call, depth);
      EachTaskAccepted(env, member, targets[1..], script, executable, call, depth);
    }
  }

  lemma {:induction false} CommandsAccepted(env: Env, node: Node, commands: seq<Command>, depth: nat)
    requires depth <= MAX_DEPTH
    ensures EventsOk(env, node.member, CommandsEvents(env, node, commands, depth))
    decreases |commands|
  {
    hide Events, Accepted, HasScript;
    if commands != [] {
      EventsAreAccepted(env, node.member, node.script, commands[0], depth);
      CommandsAccepted(env, node, commands[1..], depth);
    }
  }

  /** Every run a script asks for is an accepted one, and every script it delegates to exists in a
      known package: after the roots, "A delegated script is missing" cannot be recorded. */
  lemma {:induction false} RunsAreAcceptedAndTargetsExist(env: Env, node: Node)
    ensures forall x :: x in CommandRuns(env, node) ==> Accepted(env, x)
    ensures forall t :: t in Successors(env, node) ==> HasScript(t.member, t.script) && Known(env, node.member,
      t.member)
  {
    hide CommandsEvents, Accepted, Parse, HasScript;
    var declaration := FindScript(node.member.scripts, node.script);
    if declaration.Some? && Parse(declaration.value.command).Some? {
      CommandsAccepted(env, node, Parse(declaration.value.command).value, 0);
    }
  }

  // ----- a workspace's own paths keep keys apart -----

  /** What workspace discovery guarantees: members have distinct paths without a colon. */
  predicate WorkspacePaths(env: Env, project: Package) {
    && project in env.packages
    && (forall p :: p in env.packages ==> !Has(PathOf(p), ':'))
    && (forall p, q :: p in env.packages && q in env.packages && PathOf(p) == PathOf(q) ==> p == q)
  }

  lemma {:induction false} PathsStayInWorkspace(env: Env, path: seq<Node>)
    requires IsPath(env, path) && path[0].member in env.packages
    ensures path[|path| - 1].member in env.packages
    decreases |path|
  {
    hide Successors;
    if |path| > 1 {
      RunsAreAcceptedAndTargetsExist(env, path[0]);
      assert path[1] in Successors(env, path[0]);
      assert forall k :: 0 <= k < |path| - 2 ==> path[1..][k + 1] in Successors(env, path[1..][k]);
      PathsStayInWorkspace(env, path[1..]);
    }
  }

  lemma {:induction false} ColonSplitsOnce(a: string, b: string, c: string, d: string)
    requires a + ":" + b == c + ":" + d && !Has(a, ':') && !Has(c, ':')
    ensures a == c && b == d
  {
    assert (a + ":" + b)[|a|] == ':' && (c + ":" + d)[|c|] == ':';
    assert a == (a + ":" + b)[..|a|] && c == (c + ":" + d)[..|c|];
    assert b == (a + ":" + b)[|a| + 1..] && d == (c + ":" + d)[|c| + 1..];
  }

  /** In a workspace, keys always tell reachable scripts apart, so an answer without doubt is exact. */
  lemma {:induction false} WorkspaceTracesAreExact(env: Env, project: Package, purpose: Purpose)
    requires WorkspacePaths(env, project)
    ensures Faithful(env, RootSet(project, purpose))
    ensures TraceOf(env, project, purpose).reasons == [] ==>
      forall n :: n in TraceOf(env, project, purpose).visited <==> Reachable(env, RootSet(project, purpose), n)
  {
    hide IsPath, TraceOf;
    var roots := RootSet(project, purpose);
    forall a, b | Reachable(env, roots, a) && Reachable(env, roots, b) && Key(a) == Key(b) ensures a == b {
      ReachableIsInWorkspace(env, project, purpose, a);
      ReachableIsInWorkspace(env, project, purpose, b);
      ColonSplitsOnce(PathOf(a.member), a.script, PathOf(b.member), b.script);
    }
    if TraceOf(env, project, purpose).reasons == [] { TraceIsExact(env, project, purpose); }
  }

  lemma ReachableIsInWorkspace(env: Env, project: Package, purpose: Purpose, n: Node)
    requires WorkspacePaths(env, project) && Reachable(env, RootSet(project, purpose), n)
    ensures n.member in env.packages
  {
    var path :| IsPath(env, path) && path[0] in RootSet(project, purpose) && path[|path| - 1] == n;
    RootsStandInTheProject(project, project.scripts, purpose);
    PathsStayInWorkspace(env, path);
  }

  lemma RootsStandInTheProject(project: Package, scripts: seq<Script>, purpose: Purpose)
    ensures forall n :: n in Roots(project, scripts, purpose) ==> n.member == project
  {
    hide Selected;
  }
}
