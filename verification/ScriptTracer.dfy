/** `traceScripts` in the source's own form: sets and lists updated in place by two mutually
    recursive methods whose loops consume the tokens. Every method is proved to do exactly what
    `ScriptGraphModel` says, so the verdict theorems of `ScriptGraphSafety` hold of `TraceScripts`. */
module ScriptTracer {
  import opened Text
  import opened ShellWords
  import opened ScriptGraphModel
  import opened ScriptGraphSafety
  import opened ScriptReach

  ghost function Left(depth: nat): nat {
    if depth <= 18 then 18 - depth else 0
  }

  class Tracer {
    const env: Env
    var visited: seq<string>
    var active: set<string>
    var reasons: seq<string>
    var executions: seq<Execution>
    ghost var nodes: seq<Node>
    ghost var order: seq<Node>

    ghost function State(): Walk
      reads this
    {
      Walk(nodes, active, reasons, executions, order)
    }

    ghost predicate Valid()
      reads this
    {
      visited == Keys(nodes)
    }

    constructor (env: Env)
      ensures Valid() && State() == START_WALK && this.env == env
    {
      this.env := env;
      visited, active, reasons, executions, nodes, order := [], {}, [], [], [], [];
    }

    method Doubt(reason: string)
      requires Valid()
      modifies this`reasons
      ensures Valid() && State() == AddReason(old(State()), reason)
    {
      if reason !in reasons { reasons := reasons + [reason]; }
    }

    method Invoke(member: Package, script: string, depth: nat)
      requires Valid()
      modifies this
      ensures Valid() && State() == ScriptGraphModel.Invoke(env, old(State()), Node(member, script), depth)
      decreases Left(depth), 2
    {
      hide Events, CommandsEvents, Parse;
      var key := PathOf(member) + ":" + script;
      ghost var node := Node(member, script);
      if depth > 16 || key in active || |visited| >= 256 {
        Doubt("Script expansion reached a cycle or resource bound.");
        return;
      }
      if key in visited { return; }
      visited := visited + [key];
      active := active + {key};
      nodes := nodes + [node];
      assert State() == Enter(old(State()), node);
      var declaration := FindScript(member.scripts, script);
      if declaration == None {
        Doubt("A delegated script is missing.");
        assert State() == Process(env, Enter(old(State()), node), NodeEvents(env, node, depth)) by {
          OneEvent(env, Enter(old(State()), node), Object("A delegated script is missing."));
        }
      } else {
        var commands := StaticCommands(declaration.value.command);
        if commands == None {
          Doubt("A script uses dynamic shell syntax or unsupported operators.");
          assert State() == Process(env, Enter(old(State()), node), NodeEvents(env, node, depth)) by {
            OneEvent(env, Enter(old(State()), node),
              Object("A script uses dynamic shell syntax or unsupported operators."));
          }
        } else {
          RunCommands(member, script, commands.value, depth);
        }
      }
      active := active - {key};
      order := order + [node];
    }

    method RunCommands(member: Package, script: string, commands: seq<Command>, depth: nat)
      requires Valid() && depth <= MAX_DEPTH
      modifies this
      ensures Valid() && State() == Process(env, old(State()),
        CommandsEvents(env, Node(member, script), commands, depth))
      decreases Left(depth), 2, 0
    {
      hide Events, Process;
      ghost var node := Node(member, script);
      ghost var goal := Process(env, State(), CommandsEvents(env, node, commands, depth));
      var i := 0;
      while i < |commands|
        invariant 0 <= i <= |commands|
        invariant Valid() && Process(env, State(), CommandsEvents(env, node, commands[i..], depth)) == goal
      {
        assert commands[i..][0] == commands[i] && commands[i..][1..] == commands[i + 1..];
        ProcessAppend(env, State(), Events(env, member, script, commands[i], depth),
          CommandsEvents(env, node, commands[i + 1..], depth));
        RunCommand(member, script, commands[i], depth);
        i := i + 1;
      }
      NoEvents(env, State());
    }

    method RunCommand(member: Package, script: string, tokens: seq<string>, depth: nat)
      requires Valid()
      modifies this
      ensures Valid() && State() == Process(env, old(State()), Events(env, member, script, tokens, depth))
      decreases Left(depth), 1
    {
      hide Process, ReadPrefix, TurboEvents, RunEvents, EachTarget, EachTask;
      NoEvents(env, State());
      if depth > 16 {
        OneEvent(env, State(), Object("Script expansion reached a resource bound."));
        Doubt("Script expansion reached a resource bound.");
        return;
      }
      if tokens == [] { return; }
      var executable, rest := tokens[0], tokens[1..];
      if executable in ["echo", "printf", "true"] { return; }
      if executable in ["npm", "pnpm", "yarn"] {
        RunManager(member, script, tokens, depth);
      } else if executable == "turbo" {
        RunTurbo(member, rest, depth);
      } else {
        RunTool(member, script, executable, rest);
      }
    }

    /** The loop over a package manager's leading options. */
    method ConsumePrefix(member: Package, executable: string, arguments: seq<string>) returns (prefix: Prefix)
      ensures prefix == ReadPrefix(env, executable, [member], arguments)
    {
      hide Select, Filter;
      var targets := [member];
      var tokens := arguments;
      while |tokens| > 0
        invariant ReadPrefix(env, executable, targets, tokens) == ReadPrefix(env, executable, [member], arguments)
        decreases |tokens|
      {
        var token := tokens[0];
        if token == "exec" {
          tokens := tokens[1..];
          if |tokens| > 0 && tokens[0] == "--" { tokens := tokens[1..]; }
          return Prefix(targets, true, tokens);
        }
        if token == "-r" || token == "--recursive" || token == "--workspaces" {
          targets := Filter(env.packages, (p: Package) => p.path != Some("."));
          tokens := tokens[1..];
          continue;
        }
        if token == "--filter" || token == "--workspace" || (executable == "yarn" && token == "workspace") {
          if |tokens| == 1 { return BadSelector; }
          var matched := Select(env, tokens[1]);
          if matched == None || matched.value == [] { return BadSelector; }
          targets, tokens := matched.value, tokens[2..];
          continue;
        }
        if StartsWith(token, "--workspace=") || StartsWith(token, "--filter=") {
          var matched := Select(env, AfterEquals(token));
          if matched == None || matched.value == [] { return BadSelector; }
          targets, tokens := matched.value, tokens[1..];
          continue;
        }
        return Prefix(targets, false, tokens);
      }
      prefix := Prefix(targets, false, []);
    }

    method RunManager(member: Package, script: string, tokens: seq<string>, depth: nat)
      requires Valid() && depth <= MAX_DEPTH
      requires tokens != [] && tokens[0] in ["npm", "pnpm", "yarn"]
      modifies this
      ensures Valid() && State() == Process(env, old(State()), Events(env, member, script, tokens, depth))
      decreases Left(depth), 0
    {
      hide Process, ReadPrefix, EachTarget, EachTask;
      ghost var events := Events(env, member, script, tokens, depth);
      var prefix := ConsumePrefix(member, tokens[0], tokens[1..]);
      if prefix.BadSelector? {
        OneEvent(env, State(), Object(BAD_SELECTOR));
        Doubt("Workspace selector is unsupported or has no matches.");
        return;
      }
      if prefix.exec {
        RunOnEach(prefix.targets, script, prefix.rest, depth);
        return;
      }
      var call := prefix.rest;
      if call != [] && (call[0] == "run" || call[0] == "run-script") { call := call[1..]; }
      if call == [] || StartsWith(call[0], "-") {
        OneEvent(env, State(), Object("Package-manager invocation is unsupported."));
        Doubt("Package-manager invocation is unsupported.");
        return;
      }
      RunTaskOnEach(prefix.targets, script, tokens[0], call, depth);
    }

    method RunOnEach(targets: seq<Package>, script: string, tokens: seq<string>, depth: nat)
      requires Valid() && depth <= MAX_DEPTH
      modifies this
      ensures Valid() && State() == Process(env, old(State()), EachTarget(env, targets, script, tokens, depth + 1))
      decreases Left(depth), 0, 0
    {
      hide Process, Events;
      ghost var goal := Process(env, State(), EachTarget(env, targets, script, tokens, depth + 1));
      var i := 0;
      while i < |targets|
        invariant 0 <= i <= |targets|
        invariant Valid() && Process(env, State(), EachTarget(env, targets[i..], script, tokens, depth + 1)) == goal
      {
        assert targets[i..][0] == targets[i] && targets[i..][1..] == targets[i + 1..];
        ProcessAppend(env, State(), Events(env, targets[i], script, tokens, depth + 1),
          EachTarget(env, targets[i + 1..], script, tokens, depth + 1));
        RunCommand(targets[i], script, tokens, depth + 1);
        i := i + 1;
      }
      NoEvents(env, State());
    }

    method RunTaskOnEach(targets: seq<Package>, script: string, executable: string, call: seq<string>, depth: nat)
      requires Valid() && depth <= MAX_DEPTH && call != []
      modifies this
      ensures Valid() && State() == Process(env, old(State()), EachTask(env, targets, script, executable, call, depth))
      decreases Left(depth), 0, 1
    {
      hide Process, TaskEvents;
      ghost var goal := Process(env, State(), EachTask(env, targets, script, executable, call, depth));
      var i := 0;
      while i < |targets|
        invariant 0 <= i <= |targets|
        invariant Valid() && Process(env, State(), EachTask(env, targets[i..], script, executable, call, depth)) == goal
      {
        assert targets[i..][0] == targets[i] && targets[i..][1..] == targets[i + 1..];
        ProcessAppend(env, State(), TaskEvents(env, targets[i], script, executable, call, depth),
          EachTask(env, targets[i + 1..], script, executable, call, depth));
        RunTask(targets[i], script, executable, call, depth);
        i := i + 1;
      }
      NoEvents(env, State());
    }

    method RunTask(target: Package, script: string, executable: string, call: seq<string>, depth: nat)
      requires Valid() && depth <= MAX_DEPTH && call != []
      modifies this
      ensures Valid() && State() == Process(env, old(State()), TaskEvents(env, target, script, executable, call, depth))
      decreases Left(depth), 0, 0
    {
      hide Process, Events, RunnerOf;
      if HasScript(target, call[0]) {
        if |call| > 1 {
          OneEvent(env, State(), Object("Forwarded script arguments may override the delegated execution path."));
          Doubt("Forwarded script arguments may override the delegated execution path.");
        } else {
          OneEvent(env, State(), Delegate(Node(target, call[0]), depth + 1));
          Invoke(target, call[0], depth + 1);
        }
      } else if executable != "npm" && RunnerOf(call[0]).Some? {
        RunCommand(target, script, call, depth + 1);
      } else {
        OneEvent(env, State(), Object("A delegated script or executable is unavailable."));
        Doubt("A delegated script or executable is unavailable.");
      }
    }

    method RunTurbo(member: Package, arguments: seq<string>, depth: nat)
      requires Valid() && depth <= MAX_DEPTH
      modifies this
      ensures Valid() && State() == Process(env, old(State()), TurboEvents(env, member, arguments, depth))
      decreases Left(depth), 0
    {
      hide Process, NarrowTurbo, DeclaredTool, DelegateAll, Filter;
      if !DeclaredTool(env, member, "turbo") {
        OneEvent(env, State(), Object("Turbo is not declared in the package or an ancestor."));
        Doubt("Turbo is not declared in the package or an ancestor.");
        return;
      }
      if arguments == [] || arguments[0] != "run" {
        OneEvent(env, State(), Object("Only static turbo run tasks are supported."));
        Doubt("Only static turbo run tasks are supported.");
        return;
      }
      if |arguments| == 1 || StartsWith(arguments[1], "-") {
        OneEvent(env, State(), Object("Turbo task is unresolved."));
        Doubt("Turbo task is unresolved.");
        return;
      }
      var task := arguments[1];
      var all := Filter(env.packages, (p: Package) => p.path != Some(PathOf(member)) && HasScript(p, task));
      var narrowed := NarrowTargets(all, arguments[2..]);
      if narrowed.Refused? {
        OneEvent(env, State(), Object(narrowed.reason));
        Doubt(narrowed.reason);
        return;
      }
      if narrowed.targets == [] {
        OneEvent(env, State(), Object("Turbo task did not resolve to any member scripts."));
        Doubt("Turbo task did not resolve to any member scripts.");
        return;
      }
      InvokeAll(narrowed.targets, task, depth);
    }

    method NarrowTargets(all: seq<Package>, flags: seq<string>) returns (narrowed: Narrowed)
      ensures narrowed == NarrowTurbo(env, all, flags)
    {
      hide Select, Filter;
      var targets := all;
      var tokens := flags;
      while |tokens| > 0
        invariant NarrowTurbo(env, targets, tokens) == NarrowTurbo(env, all, flags)
        decreases |tokens|
      {
        var flag := tokens[0];
        if flag == "--filter" || StartsWith(flag, "--filter=") {
          var selector := if flag == "--filter" then (if |tokens| > 1 then Some(tokens[1]) else None) else Some(flag[9..]);
          var matched: Option<seq<Package>> := None;
          if selector.Some? { matched := Select(env, selector.value); }
          if matched == None { return Refused("Turbo selector is unsupported."); }
          targets := Filter(targets, (p: Package) => p in matched.value);
          tokens := if flag == "--filter" then tokens[2..] else tokens[1..];
        } else {
          return Refused("Turbo options are outside supported static delegation.");
        }
      }
      narrowed := Narrowed(targets);
    }

    method InvokeAll(targets: seq<Package>, task: string, depth: nat)
      requires Valid() && depth <= MAX_DEPTH
      modifies this
      ensures Valid() && State() == Process(env, old(State()), DelegateAll(targets, task, depth + 1))
      decreases Left(depth), 0, 0
    {
      hide ScriptGraphModel.Invoke;
      ghost var goal := Process(env, State(), DelegateAll(targets, task, depth + 1));
      var i := 0;
      while i < |targets|
        invariant 0 <= i <= |targets|
        invariant Valid() && Process(env, State(), DelegateAll(targets[i..], task, depth + 1)) == goal
      {
        assert targets[i..][0] == targets[i] && targets[i..][1..] == targets[i + 1..];
        Invoke(targets[i], task, depth + 1);
        i := i + 1;
      }
    }

    method RunTool(member: Package, script: string, executable: string, arguments: seq<string>)
      requires Valid()
      modifies this
      ensures Valid() && State() == Process(env, old(State()), RunEvents(env, member, script, executable, arguments))
    {
      hide Process, OnlyInforms, RunsNothing, RunnerOf, DeclaredTool;
      NoEvents(env, State());
      if OnlyInforms(executable, arguments) { return; }
      var runner := RunnerOf(executable);
      var nodeTest := executable == "node" && "--test" in arguments;
      if runner == None && !nodeTest {
        OneEvent(env, State(), Object("A command is outside the supported static runner conventions."));
        Doubt("A command is outside the supported static runner conventions.");
        return;
      }
      if runner.Some? && !DeclaredTool(env, member, runner.value.dependency) {
        OneEvent(env, State(), Object("The runner is not declared in the package or an ancestor."));
        Doubt("The runner is not declared in the package or an ancestor.");
        return;
      }
      if RunsNothing(executable, arguments) { return; }
      var execution := Execution(PathOf(member), script, executable, arguments,
        if nodeTest then Test else runner.value.purpose, if runner.Some? then Some(runner.value.dependency) else None);
      OneEvent(env, State(), Execute(execution));
      executions := executions + [execution];
    }
  }

  lemma NoEvents(env: Env, w: Walk)
    ensures Process(env, w, []) == w
  {
  }

  ghost function Met(env: Env, w: Walk, event: Event): Walk {
    match event
    case Delegate(node, depth) => ScriptGraphModel.Invoke(env, w, node, depth)
    case Execute(execution) => w.(executions := w.executions + [execution])
    case Object(reason) => AddReason(w, reason)
  }

  lemma OneEvent(env: Env, w: Walk, event: Event)
    ensures Process(env, w, [event]) == Met(env, w, event)
  {
    assert [event][1..] == [];
    NoEvents(env, Met(env, w, event));
  }

  datatype Trace = Trace(state: State, executions: seq<Execution>, reasons: seq<string>, visited: seq<string>)

  /** `traceScripts`. It leaves no doubt when every script in reach can be expanded where it lies; and
      when it answers pass or fail while keys tell the scripts in reach apart, the answer is exactly what
      the command lines say. */
  method TraceScripts(env: Env, project: Package, purpose: Purpose) returns (trace: Trace)
    ensures var w := TraceOf(env, project, purpose);
      trace == Trace(Verdict(w, purpose), w.executions, w.reasons, Keys(w.visited))
    ensures trace.state == Unknown <==> trace.reasons != []
    ensures forall level: Node -> nat, all: set<Node> ::
      Fits(env, project, purpose, level, all) && KeysTellApart(env, project, purpose) ==> trace.state != Unknown
    ensures trace.state != Unknown && KeysTellApart(env, project, purpose) ==>
      && (forall n :: Reaches(env, project, purpose, n) ==> Key(n) in trace.visited)
      && (forall key :: key in trace.visited ==> exists n :: Reaches(env, project, purpose, n) && Key(n) == key)
      && NoLoops(env, project, purpose)
      && (forall x :: x in trace.executions <==> exists n :: Reaches(env, project, purpose, n) && RunsTool(env, n, x))
      && (trace.state == Pass <==>
            exists n, x :: Reaches(env, project, purpose, n) && RunsTool(env, n, x) && x.purpose == purpose)
  {
    hide Reaches, NoLoops, RunsTool, KeysTellApart, TraceOf, Fits;
    var tracer := new Tracer(env);
    InvokeSelected(tracer, project, purpose);
    var state := Unknown;
    if tracer.reasons == [] {
      state := if exists x :: x in tracer.executions && x.purpose == purpose then Pass else Fail;
    }
    trace := Trace(state, tracer.executions, tracer.reasons, tracer.visited);
    forall level: Node -> nat, all: set<Node> |
      Fits(env, project, purpose, level, all) && KeysTellApart(env, project, purpose)
      ensures trace.state != Unknown
    {
      FittingLinesLeaveNoDoubt(env, project, purpose, level, all);
    }
    if trace.state != Unknown && KeysTellApart(env, project, purpose) {
      TraceFollowsTheLines(env, project, purpose);
      forall n | Reaches(env, project, purpose, n) ensures Key(n) in trace.visited {
        KeyOfMember(tracer.nodes, n);
      }
      forall key | key in trace.visited ensures exists n :: Reaches(env, project, purpose, n) && Key(n) == key {
        var i :| 0 <= i < |trace.visited| && trace.visited[i] == key;
        assert tracer.nodes[i] in tracer.nodes;
      }
    }
  }

  lemma OneMoreRoot(env: Env, w: Walk, project: Package, scripts: seq<Script>, purpose: Purpose)
    requires scripts != []
    ensures Process(env, w, DelegateRoots(Roots(project, scripts, purpose))) ==
      Process(env,
        if Selected(scripts[0], purpose) then ScriptGraphModel.Invoke(env, w, Node(project, scripts[0].name), 0) else w,
        DelegateRoots(Roots(project, scripts[1..], purpose)))
  {
    hide Selected, ScriptGraphModel.Invoke;
    var others := Roots(project, scripts[1..], purpose);
    if Selected(scripts[0], purpose) {
      assert DelegateRoots([Node(project, scripts[0].name)] + others)[1..] == DelegateRoots(others);
    } else {
      assert [] + others == others;
    }
  }

  /** The loop over the project's own scripts. */
  method InvokeSelected(tracer: Tracer, project: Package, purpose: Purpose)
    requires tracer.Valid() && tracer.State() == START_WALK
    modifies tracer
    ensures tracer.Valid() && tracer.State() == TraceOf(tracer.env, project, purpose)
  {
    hide Selected, ScriptGraphModel.Invoke, Process, DelegateRoots;
    var env := tracer.env;
    var i := 0;
    while i < |project.scripts|
      invariant 0 <= i <= |project.scripts|
      invariant tracer.Valid()
      invariant Process(env, tracer.State(), DelegateRoots(Roots(project, project.scripts[i..], purpose))) == TraceOf(env, project, purpose)
    {
      ghost var rest := project.scripts[i..];
      assert rest[0] == project.scripts[i] && rest[1..] == project.scripts[i + 1..];
      OneMoreRoot(env, tracer.State(), project, rest, purpose);
      var chosen := IsSelected(project.scripts[i], purpose);
      if chosen { tracer.Invoke(project, project.scripts[i].name, 0); }
      i := i + 1;
    }
    NothingLeft(env, tracer.State(), project, purpose);
  }

  lemma NothingLeft(env: Env, w: Walk, project: Package, purpose: Purpose)
    ensures Process(env, w, DelegateRoots(Roots(project, [], purpose))) == w
  {
  }

  method IsSelected(script: Script, purpose: Purpose) returns (chosen: bool)
    ensures chosen <==> Selected(script, purpose)
  {
    hide Parse, NamedFor, StartsRunner;
    if NamedFor(script.name, purpose) { return true; }
    var commands := StaticCommands(script.command);
    chosen := commands.Some? && exists tokens :: tokens in commands.value && StartsRunner(tokens, purpose);
  }
}
