/** `traceScripts` of `script-graph.ts`, as functions: what one command line asks for, and the
    memoised depth-first walk over the delegation graph of package scripts. */
module ScriptGraphModel {
  import opened Text
  import opened ShellWords

  datatype Script = Script(name: string, command: string)
  datatype Dependency = Dependency(name: string, group: string)
  datatype Package = Package(path: Option<string>, name: Option<string>, scripts: seq<Script>,
    dependencies: seq<Dependency>)

  datatype Purpose = Test | Lint | Typecheck
  datatype Runner = Runner(purpose: Purpose, dependency: string)
  datatype Execution = Execution(
    packagePath: string, script: string, executable: string, arguments: seq<string>, purpose: Purpose, dependency: Option<string>)

  /** The workspace, and `minimatch`. */
  datatype Env = Env(packages: seq<Package>, matches: (string, string) -> bool)

  function PathOf(p: Package): string {
    if p.path.Some? then p.path.value else "."
  }

  function RunnerOf(executable: string): Option<Runner> {
    if executable in ["jest", "vitest", "mocha", "ava", "jasmine", "tape", "cypress"] then Some(Runner(Test,
      executable))
    else if executable == "playwright" then Some(Runner(Test, "@playwright/test"))
    else if executable in ["eslint", "oxlint"] then Some(Runner(Lint, executable))
    else if executable == "biome" then Some(Runner(Lint, "@biomejs/biome"))
    else if executable == "tsc" then Some(Runner(Typecheck, "typescript"))
    else None
  }

  /** The package itself, the root, or an ancestor directory declares the tool. */
  predicate DeclaredTool(env: Env, project: Package, dependency: string) {
    exists i :: 0 <= i < |env.packages| && Declares(env.packages[i], PathOf(project), dependency)
  }

  predicate Declares(member: Package, path: string, dependency: string) {
    && (PathOf(member) == path || PathOf(member) == "." || StartsWith(path, PathOf(member) + "/"))
    && exists d :: d in member.dependencies && d.name == dependency && d.group != "peerDependencies"
  }

  predicate HasScript(p: Package, name: string) {
    exists s :: s in p.scripts && s.name == name
  }

  function FindScript(scripts: seq<Script>, name: string): (r: Option<Script>)
    ensures r.Some? <==> exists s :: s in scripts && s.name == name
    ensures r.Some? ==> r.value in scripts && r.value.name == name
  {
    if scripts == [] then None
    else if scripts[0].name == name then Some(scripts[0])
    else FindScript(scripts[1..], name)
  }

  predicate HasPart(s: string, part: string) {
    StartsWith(s, part) || (s != "" && HasPart(s[1..], part))
  }

  predicate StaticSelector(selector: string) {
    |selector| <= 500 && !(exists c :: c in selector && c in "!{}[]\\^") && !HasPart(selector, "...")
  }

  function Select(env: Env, selector: string): Option<seq<Package>> {
    if !StaticSelector(selector) then None
    else if StartsWith(selector, "./") then Some(Filter(env.packages, (p: Package) => env.matches(PathOf(p),
      selector[2..])))
    else Some(Filter(env.packages, (p: Package) => env.matches(if p.name.Some? then p.name.value else "", selector)))
  }

  /** What follows the first `=`. */
  function AfterEquals(token: string): string {
    if token == "" then "" else if token[0] == '=' then token[1..] else AfterEquals(token[1..])
  }

  // ----- what one command line asks for -----

  datatype Node = Node(member: Package, script: string)

  datatype Event =
    | Delegate(node: Node, depth: nat)
    | Execute(execution: Execution)
    | Object(reason: string)

  function DepthBudget(events: seq<Event>): nat {
    if events == [] then 0
    else
      var rest := DepthBudget(events[1..]);
      if events[0].Delegate? && events[0].depth <= 18 && 18 - events[0].depth > rest then 18 - events[0].depth else rest
  }

  lemma DepthBudgetAppend(a: seq<Event>, b: seq<Event>)
    ensures DepthBudget(a + b) == if DepthBudget(a) > DepthBudget(b) then DepthBudget(a) else DepthBudget(b)
  {
    if a == [] { assert a + b == b; }
    else {
      assert (a + b)[1..] == a[1..] + b;
      DepthBudgetAppend(a[1..], b);
    }
  }

  const MAX_DEPTH: nat := 16
  const MAX_VISITED: nat := 256

  const BAD_SELECTOR := "Workspace selector is unsupported or has no matches."

  /** A package manager's leading options: the packages they select, and what is left to run. */
  datatype Prefix = Prefix(targets: seq<Package>, exec: bool, rest: seq<string>) | BadSelector

  function ReadPrefix(env: Env, executable: string, targets: seq<Package>, tokens: seq<string>): (r: Prefix)
    ensures r.Prefix? ==> |r.rest| <= |tokens|
    decreases |tokens|
  {
    if tokens == [] then Prefix(targets, false, [])
    else
      var token := tokens[0];
      if token == "exec" then
        Prefix(targets, true, if |tokens| > 1 && tokens[1] == "--" then tokens[2..] else tokens[1..])
      else if token in ["-r", "--recursive", "--workspaces"] then
        ReadPrefix(env, executable, Filter(env.packages, (p: Package) => p.path != Some(".")), tokens[1..])
      else if token in ["--filter", "--workspace"] || (executable == "yarn" && token == "workspace") then
        if |tokens| == 1 then BadSelector
        else
          var matched := Select(env, tokens[1]);
          if matched == None || matched == Some([]) then BadSelector
          else ReadPrefix(env, executable, matched.value, tokens[2..])
      else if StartsWith(token, "--workspace=") || StartsWith(token, "--filter=") then
        var matched := Select(env, AfterEquals(token));
        if matched == None || matched == Some([]) then BadSelector
        else ReadPrefix(env, executable, matched.value, tokens[1..])
      else Prefix(targets, false, tokens)
  }

  function Events(env: Env, member: Package, script: string, tokens: seq<string>, depth: nat): (r: seq<Event>)
    ensures DepthBudget(r) <= if depth <= MAX_DEPTH then 17 - depth else 0
    decreases |tokens|, 0, 0
  {
    if depth > MAX_DEPTH then [Object("Script expansion reached a resource bound.")]
    else if tokens == [] then []
    else
      var executable := tokens[0];
      var rest := tokens[1..];
      if executable in ["echo", "printf", "true"] then []
      else if executable in ["npm", "pnpm", "yarn"] then
        var prefix := ReadPrefix(env, executable, [member], rest);
        if prefix.BadSelector? then [Object(BAD_SELECTOR)]
        else if prefix.exec then EachTarget(env, prefix.targets, script, prefix.rest, depth + 1)
        else
          var call := if prefix.rest != [] && prefix.rest[0] in ["run", "run-script"] then prefix.rest[1..] else prefix.rest;
          if call == [] || StartsWith(call[0], "-") then [Object("Package-manager invocation is unsupported.")]
          else EachTask(env, prefix.targets, script, executable, call, depth)
      else if executable == "turbo" then TurboEvents(env, member, rest, depth)
      else RunEvents(env, member, script, executable, rest)
  }

  function EachTarget(env: Env, targets: seq<Package>, script: string, tokens: seq<string>, depth: nat): (r: seq<Event>)
    ensures DepthBudget(r) <= if depth <= MAX_DEPTH then 17 - depth else 0
    decreases |tokens|, 1, |targets|
  {
    if targets == [] then []
    else
      var first := Events(env, targets[0], script, tokens, depth);
      var others := EachTarget(env, targets[1..], script, tokens, depth);
      DepthBudgetAppend(first, others);
      first + others
  }

  function TaskEvents(env: Env, target: Package, script: string, executable: string, call: seq<string>,
      depth: nat): (r: seq<Event>)
    requires call != [] && depth <= MAX_DEPTH
    ensures DepthBudget(r) <= 17 - depth
    decreases |call|, 0, 1
  {
    if HasScript(target, call[0]) then
      if |call| > 1 then [Object("Forwarded script arguments may override the delegated execution path.")]
      else [Delegate(Node(target, call[0]), depth + 1)]
    else if executable != "npm" && RunnerOf(call[0]).Some? then Events(env, target, script, call, depth + 1)
    else [Object("A delegated script or executable is unavailable.")]
  }

  function EachTask(env: Env, targets: seq<Package>, script: string, executable: string, call: seq<string>,
      depth: nat): (r: seq<Event>)
    requires call != [] && depth <= MAX_DEPTH
    ensures DepthBudget(r) <= 17 - depth
    decreases |call|, 1, |targets|
  {
    if targets == [] then []
    else
      var first := TaskEvents(env, targets[0], script, executable, call, depth);
      var others := EachTask(env, targets[1..], script, executable, call, depth);
      DepthBudgetAppend(first, others);
      first + others
  }

  datatype Narrowed = Narrowed(targets: seq<Package>) | Refused(reason: string)

  function NarrowTurbo(env: Env, targets: seq<Package>, tokens: seq<string>): Narrowed
    decreases |tokens|
  {
    if tokens == [] then Narrowed(targets)
    else if tokens[0] == "--filter" || StartsWith(tokens[0], "--filter=") then
      var selector := if tokens[0] == "--filter" then (if |tokens| > 1 then Some(tokens[1]) else None) else Some(tokens[0][9..]);
      var matched := if selector == None then None else Select(env, selector.value);
      if matched == None then Refused("Turbo selector is unsupported.")
      else NarrowTurbo(env, Filter(targets, (p: Package) => p in matched.value),
        if tokens[0] == "--filter" then tokens[2..] else tokens[1..])
    else Refused("Turbo options are outside supported static delegation.")
  }

  function TurboEvents(env: Env, member: Package, tokens: seq<string>, depth: nat): (r: seq<Event>)
    requires depth <= MAX_DEPTH
    ensures DepthBudget(r) <= 17 - depth
  {
    if !DeclaredTool(env, member, "turbo") then [Object("Turbo is not declared in the package or an ancestor.")]
    else if tokens == [] || tokens[0] != "run" then [Object("Only static turbo run tasks are supported.")]
    else if |tokens| == 1 || StartsWith(tokens[1], "-") then [Object("Turbo task is unresolved.")]
    else
      var task := tokens[1];
      var targets := Filter(env.packages, (p: Package) => p.path != Some(PathOf(member)) && HasScript(p, task));
      match NarrowTurbo(env, targets, tokens[2..])
      case Refused(reason) => [Object(reason)]
      case Narrowed(chosen) =>
        if chosen == [] then [Object("Turbo task did not resolve to any member scripts.")]
        else DelegateAll(chosen, task, depth + 1)
  }

  function DelegateAll(targets: seq<Package>, task: string, depth: nat): (r: seq<Event>)
    requires depth <= 17
    ensures DepthBudget(r) <= 18 - depth
  {
    if targets == [] then [] else [Delegate(Node(targets[0], task), depth)] + DelegateAll(targets[1..], task, depth)
  }

  predicate OnlyInforms(executable: string, arguments: seq<string>) {
    || (exists token :: token in arguments && token in ["--version", "--help", "-h", "--listTests", "--showConfig"])
    || (executable == "vitest" && arguments != [] && arguments[0] in ["list", "bench", "init"])
  }

  predicate RunsNothing(executable: string, arguments: seq<string>) {
    var first := if arguments == [] then "" else arguments[0];
    || (executable == "playwright" && first != "test")
    || (executable == "cypress" && first !in ["run", "open"])
    || (executable == "biome" && first !in ["lint", "check"])
    || (executable == "tsc" && "--noCheck" in arguments)
  }

  predicate IsNodeTest(executable: string, arguments: seq<string>) {
    executable == "node" && "--test" in arguments
  }

  function RunEvents(env: Env, member: Package, script: string, executable: string,
      arguments: seq<string>): (r: seq<Event>)
    ensures DepthBudget(r) == 0
  {
    if OnlyInforms(executable, arguments) then []
    else
      var runner := RunnerOf(executable);
      if runner == None && !IsNodeTest(executable, arguments) then [Object("A command is outside the supported static runner conventions.")]
      else if runner.Some? && !DeclaredTool(env, member, runner.value.dependency) then [Object("The runner is not declared in the package or an ancestor.")]
      else if RunsNothing(executable, arguments) then []
      else [Execute(Execution(PathOf(member), script, executable, arguments,
        if IsNodeTest(executable, arguments) then Test else runner.value.purpose,
        if runner.Some? then Some(runner.value.dependency) else None))]
  }

  function CommandsEvents(env: Env, node: Node, commands: seq<Command>, depth: nat): (r: seq<Event>)
    requires depth <= MAX_DEPTH
    ensures DepthBudget(r) <= 17 - depth
  {
    if commands == [] then []
    else
      var first := Events(env, node.member, node.script, commands[0], depth);
      var others := CommandsEvents(env, node, commands[1..], depth);
      DepthBudgetAppend(first, others);
      first + others
  }

  /** Everything one script asks for. */
  function NodeEvents(env: Env, node: Node, depth: nat): (r: seq<Event>)
    requires depth <= MAX_DEPTH
    ensures DepthBudget(r) <= 17 - depth
  {
    var declaration := FindScript(node.member.scripts, node.script);
    if declaration == None then [Object("A delegated script is missing.")]
    else
      var commands := Parse(declaration.value.command);
      if commands == None then [Object("A script uses dynamic shell syntax or unsupported operators.")]
      else CommandsEvents(env, node, commands.value, depth)
  }

  // ----- the walk -----

  /** `order` records the nodes as their expansion finishes. */
  datatype Walk = Walk(visited: seq<Node>, active: set<string>, reasons: seq<string>, executions: seq<Execution>,
    order: seq<Node>)

  const START_WALK := Walk([], {}, [], [], [])

  function Key(node: Node): string {
    PathOf(node.member) + ":" + node.script
  }

  function Keys(nodes: seq<Node>): (r: seq<string>)
    ensures |r| == |nodes| && forall i :: 0 <= i < |nodes| ==> r[i] == Key(nodes[i])
  {
    seq(|nodes|, i requires 0 <= i < |nodes| => Key(nodes[i]))
  }

  function AddReason(w: Walk, reason: string): Walk {
    if reason in w.reasons then w else w.(reasons := w.reasons + [reason])
  }

  const CYCLE_OR_BOUND := "Script expansion reached a cycle or resource bound."

  function Enter(w: Walk, node: Node): Walk {
    w.(visited := w.visited + [node], active := w.active + {Key(node)})
  }

  function Leave(w: Walk, node: Node): Walk {
    w.(active := w.active - {Key(node)}, order := w.order + [node])
  }

  function Invoke(env: Env, w: Walk, node: Node, depth: nat): Walk
    decreases if depth <= 18 then 18 - depth else 0, 0
  {
    if depth > MAX_DEPTH || Key(node) in w.active || |w.visited| >= MAX_VISITED then AddReason(w, CYCLE_OR_BOUND)
    else if Key(node) in Keys(w.visited) then w
    else Leave(Process(env, Enter(w, node), NodeEvents(env, node, depth)), node)
  }

  function Process(env: Env, w: Walk, events: seq<Event>): Walk
    decreases DepthBudget(events), |events| + 1
  {
    if events == [] then w
    else
      var next := match events[0]
        case Delegate(node, depth) => Invoke(env, w, node, depth)
        case Execute(execution) => w.(executions := w.executions + [execution])
        case Object(reason) => AddReason(w, reason);
      Process(env, next, events[1..])
  }

  lemma {:induction false} ProcessAppend(env: Env, w: Walk, a: seq<Event>, b: seq<Event>)
    ensures Process(env, w, a + b) == Process(env, Process(env, w, a), b)
    decreases |a|
  {
    if a == [] { assert a + b == b; }
    else {
      assert (a + b)[1..] == a[1..] + b;
      var next := match a[0]
        case Delegate(node, depth) => Invoke(env, w, node, depth)
        case Execute(execution) => w.(executions := w.executions + [execution])
        case Object(reason) => AddReason(w, reason);
      ProcessAppend(env, next, a[1..], b);
      assert Process(env, w, a) == Process(env, next, a[1..]);
      assert Process(env, w, a + b) == Process(env, next, a[1..] + b);
    }
  }

  // ----- which scripts are traced, and the verdict -----

  predicate NameOrPrefixed(name: string, word: string) {
    name == word || StartsWith(name, word + ":")
  }

  predicate NamedFor(name: string, purpose: Purpose) {
    match purpose
    case Test => NameOrPrefixed(name, "test") || NameOrPrefixed(name, "e2e")
    case Lint => NameOrPrefixed(name, "lint")
    case Typecheck => NameOrPrefixed(name, "typecheck") || NameOrPrefixed(name, "type-check") || NameOrPrefixed(name,
      "check-types")
  }

  predicate StartsRunner(tokens: Command, purpose: Purpose) {
    && tokens != []
    && ((RunnerOf(tokens[0]).Some? && RunnerOf(tokens[0]).value.purpose == purpose)
        || (purpose == Test && tokens[0] == "node" && "--test" in tokens))
  }

  predicate Selected(script: Script, purpose: Purpose) {
    NamedFor(script.name, purpose) ||
    (Parse(script.command).Some? && exists tokens :: tokens in Parse(script.command).value && StartsRunner(tokens, purpose))
  }

  function Roots(project: Package, scripts: seq<Script>, purpose: Purpose): seq<Node> {
    if scripts == [] then []
    else (if Selected(scripts[0], purpose) then [Node(project, scripts[0].name)] else []) + Roots(project,
      scripts[1..], purpose)
  }

  function DelegateRoots(roots: seq<Node>): seq<Event> {
    if roots == [] then [] else [Delegate(roots[0], 0)] + DelegateRoots(roots[1..])
  }

  datatype State = Pass | Fail | Unknown

  function TraceOf(env: Env, project: Package, purpose: Purpose): Walk {
    Process(env, START_WALK, DelegateRoots(Roots(project, project.scripts, purpose)))
  }

  function Verdict(w: Walk, purpose: Purpose): State {
    if w.reasons != [] then Unknown
    else if exists x :: x in w.executions && x.purpose == purpose then Pass
    else Fail
  }
}
