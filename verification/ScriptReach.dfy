/** Tracing judged against the command lines themselves: which scripts the lines of a script lead to and
    which tools they run is read off their words, not off the events the walk consumes. */
module ScriptReach {
  import opened Text
  import opened ShellWords
  import opened ScriptGraphModel
  import opened ScriptGraphSafety
  import opened ScriptDelegation

  // ----- what a script's own lines say -----

  /** The first script of that name. */
  predicate FirstNamed(p: Package, name: string, i: nat) {
    i < |p.scripts| && p.scripts[i].name == name && forall j :: 0 <= j < i ==> p.scripts[j].name != name
  }

  ghost predicate Line(a: Node, tokens: seq<string>) {
    exists i: nat :: FirstNamed(a.member, a.script, i) && Parse(a.member.scripts[i].command).Some?
      && tokens in Parse(a.member.scripts[i].command).value
  }

  /** Some line of `a` leads to `b`; `k` commands on the way hand their words on. */
  ghost predicate LeadsTo(env: Env, a: Node, b: Node, k: nat) {
    exists tokens :: Line(a, tokens) && Asks(env, a.member, a.script, tokens, Goes(b), k)
  }

  ghost predicate Next(env: Env, a: Node, b: Node) {
    exists k: nat :: LeadsTo(env, a, b, k)
  }

  ghost predicate RunsTool(env: Env, a: Node, x: Execution) {
    exists tokens, k: nat :: Line(a, tokens) && Asks(env, a.member, a.script, tokens, Does(x), k)
  }

  /** The script exists, parses, and each of its lines is understood. */
  ghost predicate Clear(env: Env, a: Node, levels: nat) {
    && (exists i: nat :: FirstNamed(a.member, a.script, i) && Parse(a.member.scripts[i].command).Some?)
    && forall tokens :: Line(a, tokens) ==> Understood(env, a.member, tokens, levels)
  }

  function NamesFor(purpose: Purpose): seq<string> {
    match purpose
    case Test => ["test", "e2e"]
    case Lint => ["lint"]
    case Typecheck => ["typecheck", "type-check", "check-types"]
  }

  /** Such a name, alone or before a colon. */
  predicate NamedAfter(name: string, purpose: Purpose) {
    exists word :: word in NamesFor(purpose) && (name == word || StartsWith(name, word + ":"))
  }

  /** A runner for the purpose, or Node's own test runner. */
  predicate StartsTool(tokens: Command, purpose: Purpose) {
    && tokens != []
    && (|| (RunnerOf(tokens[0]).Some? && RunnerOf(tokens[0]).value.purpose == purpose)
        || (purpose == Test && IsNodeTest(tokens[0], tokens)))
  }

  /** One of its lines starts with such a tool. */
  predicate Starts(command: string, purpose: Purpose) {
    Parse(command).Some? && exists tokens :: tokens in Parse(command).value && StartsTool(tokens, purpose)
  }

  /** A script of the project that is named for the purpose, or one of whose lines starts a runner for it. */
  ghost predicate Wanted(project: Package, purpose: Purpose, n: Node) {
    && n.member == project
    && exists s ::
         s in project.scripts && s.name == n.script && (NamedAfter(s.name, purpose) || Starts(s.command, purpose))
  }

  lemma SelectedIsWanted(s: Script, purpose: Purpose)
    ensures Selected(s, purpose) <==> NamedAfter(s.name, purpose) || Starts(s.command, purpose)
  {
    hide Parse, RunnerOf;
    NamedIsNamedAfter(s.name, purpose);
    if Parse(s.command).Some? {
      forall tokens ensures StartsRunner(tokens, purpose) <==> StartsTool(tokens, purpose) {}
    }
  }

  lemma NamedIsNamedAfter(name: string, purpose: Purpose)
    ensures NamedFor(name, purpose) <==> NamedAfter(name, purpose)
  {
    match purpose {
      case Test => assert "test" in NamesFor(purpose) && "e2e" in NamesFor(purpose);
      case Lint => assert "lint" in NamesFor(purpose);
      case Typecheck =>
        assert "typecheck" in NamesFor(purpose) && "type-check" in NamesFor(purpose) && "check-types" in NamesFor(purpose);
    }
  }

  ghost predicate IsWay(env: Env, path: seq<Node>) {
    path != [] && forall i :: 0 <= i < |path| - 1 ==> Next(env, path[i], path[i + 1])
  }

  /** Following lines from a wanted script leads to `n`. */
  ghost predicate Reaches(env: Env, project: Package, purpose: Purpose, n: Node) {
    exists path :: IsWay(env, path) && Wanted(project, purpose, path[0]) && path[|path| - 1] == n
  }

  ghost predicate KeysTellApart(env: Env, project: Package, purpose: Purpose) {
    forall a, b :: Reaches(env, project, purpose, a) && Reaches(env, project, purpose, b) && Key(a) == Key(b) ==> a == b
  }

  ghost predicate NoLoops(env: Env, project: Package, purpose: Purpose) {
    forall path :: IsWay(env, path) && |path| > 1 && Reaches(env, project, purpose, path[0]) ==>
      path[|path| - 1] != path[0]
  }

  // ----- one script's events are what its lines say -----

  lemma {:induction false} FindsFirst(scripts: seq<Script>, name: string) returns (i: nat)
    requires FindScript(scripts, name).Some?
    ensures i < |scripts| && scripts[i] == FindScript(scripts, name).value
    ensures forall j :: 0 <= j < i ==> scripts[j].name != name
  {
    if scripts[0].name == name { return 0; }
    i := FindsFirst(scripts[1..], name);
    forall j | 0 <= j < i + 1 ensures scripts[j].name != name {
      if j > 0 { assert scripts[j] == scripts[1..][j - 1]; }
    }
    i := i + 1;
  }

  lemma FirstIsOne(p: Package, name: string, i: nat, j: nat)
    requires FirstNamed(p, name, i) && FirstNamed(p, name, j)
    ensures i == j
  {
  }

  /** The lines of a script that exists and parses. */
  lemma LinesOf(a: Node, commands: seq<Command>)
    requires FindScript(a.member.scripts, a.script).Some?
    requires Parse(FindScript(a.member.scripts, a.script).value.command) == Some(commands)
    ensures forall tokens :: Line(a, tokens) <==> tokens in commands
    ensures exists i: nat :: FirstNamed(a.member, a.script, i) && Parse(a.member.scripts[i].command).Some?
  {
    hide Parse;
    var i := FindsFirst(a.member.scripts, a.script);
    assert FirstNamed(a.member, a.script, i);
    forall j: nat | FirstNamed(a.member, a.script, j) ensures j == i { FirstIsOne(a.member, a.script, i, j); }
  }

  lemma NoLines(a: Node)
    requires var found := FindScript(a.member.scripts, a.script); found == None || Parse(found.value.command) == None
    ensures forall tokens :: !Line(a, tokens)
    ensures !exists i: nat :: FirstNamed(a.member, a.script, i) && Parse(a.member.scripts[i].command).Some?
  {
    hide Parse;
    if FindScript(a.member.scripts, a.script).Some? {
      var i := FindsFirst(a.member.scripts, a.script);
      forall j: nat | FirstNamed(a.member, a.script, j) ensures j == i { FirstIsOne(a.member, a.script, i, j); }
    }
  }

  lemma {:induction false} CommandsHave(env: Env, node: Node, commands: seq<Command>, depth: nat)
    requires depth <= MAX_DEPTH
    ensures forall e :: e in CommandsEvents(env, node, commands, depth) <==>
      exists c :: c in commands && e in Events(env, node.member, node.script, c, depth)
    decreases |commands|
  {
    hide Events;
    if commands == [] { return; }
    CommandsHave(env, node, commands[1..], depth);
    var first := Events(env, node.member, node.script, commands[0], depth);
    assert CommandsEvents(env, node, commands, depth) == first + CommandsEvents(env, node, commands[1..], depth);
    forall t ensures t in commands <==> t == commands[0] || t in commands[1..] {
      assert commands == [commands[0]] + commands[1..];
    }
  }

  /** A script is expanded without doubt exactly when it is clear. */
  lemma {:induction false} CleanIffClear(env: Env, a: Node, depth: nat)
    requires depth <= MAX_DEPTH
    ensures Clean(NodeEvents(env, a, depth)) <==> Clear(env, a, MAX_DEPTH - depth)
  {
    hide Events, CommandsEvents, Parse, Understood, Line, FirstNamed;
    var found := FindScript(a.member.scripts, a.script);
    if found == None || Parse(found.value.command) == None {
      NoLines(a);
      assert NodeEvents(env, a, depth)[0] in NodeEvents(env, a, depth);
      return;
    }
    var commands := Parse(found.value.command).value;
    LinesOf(a, commands);
    CommandsHave(env, a, commands, depth);
    forall c | c in commands
      ensures Clean(Events(env, a.member, a.script, c, depth)) <==> Understood(env, a.member, c, MAX_DEPTH - depth)
    {
      CommandsMeanWhatTheySay(env, a.member, a.script, c, depth);
    }
  }

  /** What a script's expansion finds, its lines say. */
  lemma {:induction false} FoundIsSaid(env: Env, a: Node, depth: nat, e: Event)
    returns (ask: Ask, k: nat, tokens: seq<string>)
    requires depth <= MAX_DEPTH && e in NodeEvents(env, a, depth) && !e.Object?
    ensures Line(a, tokens) && Asks(env, a.member, a.script, tokens, ask, k) && e == EventOf(ask, depth + k)
  {
    hide Events, CommandsEvents, Parse, Asks, Line;
    var commands := Parse(FindScript(a.member.scripts, a.script).value.command).value;
    LinesOf(a, commands);
    CommandsHave(env, a, commands, depth);
    tokens :| tokens in commands && e in Events(env, a.member, a.script, tokens, depth);
    ask, k := FoundIsAsked(env, a.member, a.script, tokens, depth, e);
  }

  /** What a clear script's lines say, its expansion finds. */
  lemma {:induction false} SaidIsFound(env: Env, a: Node, depth: nat, ask: Ask, k: nat, tokens: seq<string>)
    requires depth <= MAX_DEPTH && Clean(NodeEvents(env, a, depth))
    requires Line(a, tokens) && Asks(env, a.member, a.script, tokens, ask, k)
    ensures EventOf(ask, depth + k) in NodeEvents(env, a, depth)
  {
    hide Events, CommandsEvents, Parse, Asks, Line;
    var found := FindScript(a.member.scripts, a.script);
    if found == None || Parse(found.value.command) == None { NoLines(a); assert false; }
    LinesOf(a, Parse(found.value.command).value);
    CommandsHave(env, a, Parse(found.value.command).value, depth);
    AskedIsFound(env, a.member, a.script, tokens, ask, k, depth);
  }

  lemma {:induction false} SuccessorsAreLedTo(env: Env, a: Node)
    ensures forall b :: b in Successors(env, a) ==> Next(env, a, b)
    ensures forall x :: x in CommandRuns(env, a) ==> RunsTool(env, a, x)
  {
    hide NodeEvents, Asks, Line;
    forall b | b in Successors(env, a) ensures Next(env, a, b) {
      var e :| e in NodeEvents(env, a, 0) && e.Delegate? && e.node == b;
      var ask, k, tokens := FoundIsSaid(env, a, 0, e);
      assert LeadsTo(env, a, b, k);
    }
    forall x | x in CommandRuns(env, a) ensures RunsTool(env, a, x) {
      var e :| e in NodeEvents(env, a, 0) && e.Execute? && e.execution == x;
      var ask, k, tokens := FoundIsSaid(env, a, 0, e);
    }
  }

  /** On a script without doubt: its successors and runs are exactly what its lines say. */
  lemma {:induction false} DoubtlessIsExact(env: Env, a: Node)
    requires Doubtless(env, a)
    ensures forall b :: b in Successors(env, a) <==> Next(env, a, b)
    ensures forall x :: x in CommandRuns(env, a) <==> RunsTool(env, a, x)
  {
    hide NodeEvents, Asks, Line;
    SuccessorsAreLedTo(env, a);
    forall b, k: nat | LeadsTo(env, a, b, k) ensures b in Successors(env, a) {
      var tokens :| Line(a, tokens) && Asks(env, a.member, a.script, tokens, Goes(b), k);
      SaidIsFound(env, a, 0, Goes(b), k, tokens);
    }
    forall x | RunsTool(env, a, x) ensures x in CommandRuns(env, a) {
      var tokens, k: nat :| Line(a, tokens) && Asks(env, a.member, a.script, tokens, Does(x), k);
      SaidIsFound(env, a, 0, Does(x), k, tokens);
    }
  }

  // ----- reaching along lines, and reaching along events -----

  lemma RootsAreWanted(project: Package, scripts: seq<Script>, purpose: Purpose)
    ensures forall n :: n in Roots(project, scripts, purpose) <==>
      n.member == project && exists s :: s in scripts && s.name == n.script && Selected(s, purpose)
  {
    hide Selected;
    if scripts == [] { return; }
    RootsAreWanted(project, scripts[1..], purpose);
    assert scripts == [scripts[0]] + scripts[1..];
  }

  lemma RootSetIsWanted(project: Package, purpose: Purpose)
    ensures forall n :: n in RootSet(project, purpose) <==> Wanted(project, purpose, n)
  {
    hide Selected, Roots, NamedAfter, Starts;
    RootsAreWanted(project, project.scripts, purpose);
    forall s | s in project.scripts
      ensures Selected(s, purpose) <==> NamedAfter(s.name, purpose) || Starts(s.command, purpose)
    {
      SelectedIsWanted(s, purpose);
    }
  }

  /** What events reach, lines reach. */
  lemma {:induction false} ReachableIsReached(env: Env, project: Package, purpose: Purpose, n: Node)
    requires Reachable(env, RootSet(project, purpose), n)
    ensures Reaches(env, project, purpose, n)
  {
    hide RootSet, Wanted, Successors, Next;
    RootSetIsWanted(project, purpose);
    var path :| IsPath(env, path) && path[0] in RootSet(project, purpose) && path[|path| - 1] == n;
    forall i | 0 <= i < |path| - 1 ensures Next(env, path[i], path[i + 1]) {
      assert path[i + 1] in Successors(env, path[i]);
      SuccessorsAreLedTo(env, path[i]);
    }
    assert IsWay(env, path);
  }

  lemma {:induction false} WayIsPath(env: Env, project: Package, purpose: Purpose, path: seq<Node>)
    requires IsWay(env, path) && Reachable(env, RootSet(project, purpose), path[0])
    requires forall n :: Reachable(env, RootSet(project, purpose), n) ==> Doubtless(env, n)
    ensures IsPath(env, path) && Reachable(env, RootSet(project, purpose), path[|path| - 1])
    decreases |path|
  {
    hide RootSet, Successors, Next, Reachable, Doubtless;
    if |path| == 1 { return; }
    assert Next(env, path[0], path[1]);
    DoubtlessIsExact(env, path[0]);
    ReachableStep(env, RootSet(project, purpose), path[0], path[1]);
    var rest := path[1..];
    forall i | 0 <= i < |rest| - 1 ensures Next(env, rest[i], rest[i + 1]) {
      assert rest[i] == path[i + 1] && rest[i + 1] == path[i + 2];
    }
    WayIsPath(env, project, purpose, rest);
    forall i | 0 <= i < |path| - 1 ensures path[i + 1] in Successors(env, path[i]) {
      if i > 0 { assert rest[i] in Successors(env, rest[i - 1]); }
    }
  }

  lemma {:induction false} ReachedIsReachable(env: Env, project: Package, purpose: Purpose, n: Node)
    requires Reaches(env, project, purpose, n)
    requires forall n :: Reachable(env, RootSet(project, purpose), n) ==> Doubtless(env, n)
    ensures Reachable(env, RootSet(project, purpose), n)
  {
    hide RootSet, Wanted, Successors, Next, Doubtless;
    RootSetIsWanted(project, purpose);
    var path :| IsWay(env, path) && Wanted(project, purpose, path[0]) && path[|path| - 1] == n;
    var start := [path[0]];
    assert IsPath(env, start) && start[0] in RootSet(project, purpose) && start[|start| - 1] == path[0];
    WayIsPath(env, project, purpose, path);
  }

  /** An answer without doubt, judged by the command lines. The scripts visited are exactly those the
      lines lead to, they lead round no loop, the executions are exactly the tools those scripts' lines
      run, and the answer is "pass" exactly when one of them serves the purpose. */
  lemma {:induction false} TraceFollowsTheLines(env: Env, project: Package, purpose: Purpose)
    requires TraceOf(env, project, purpose).reasons == [] && KeysTellApart(env, project, purpose)
    ensures forall n :: n in TraceOf(env, project, purpose).visited <==> Reaches(env, project, purpose, n)
    ensures NoLoops(env, project, purpose)
    ensures forall x :: x in TraceOf(env, project, purpose).executions <==>
      exists n :: Reaches(env, project, purpose, n) && RunsTool(env, n, x)
    ensures Verdict(TraceOf(env, project, purpose), purpose) == Pass <==>
      exists n, x :: Reaches(env, project, purpose, n) && RunsTool(env, n, x) && x.purpose == purpose
  {
    hide TraceOf, RootSet, Reachable, Reaches, IsPath, IsWay, RunsTool, CommandRuns, Doubtless;
    var w := TraceOf(env, project, purpose);
    var roots := RootSet(project, purpose);
    forall a | Reachable(env, roots, a) ensures Reaches(env, project, purpose, a) {
      ReachableIsReached(env, project, purpose, a);
    }
    assert Faithful(env, roots);
    TraceIsExact(env, project, purpose);
    forall a | Reaches(env, project, purpose, a) ensures Reachable(env, roots, a) {
      ReachedIsReachable(env, project, purpose, a);
    }
    forall path | IsWay(env, path) && |path| > 1 && Reaches(env, project, purpose, path[0])
      ensures path[|path| - 1] != path[0]
    {
      WayIsPath(env, project, purpose, path);
    }
    forall n | Reachable(env, roots, n) ensures forall x :: x in CommandRuns(env, n) <==> RunsTool(env, n, x) {
      DoubtlessIsExact(env, n);
    }
    if n, x :| Reaches(env, project, purpose, n) && RunsTool(env, n, x) && x.purpose == purpose {
      assert x in CommandRuns(env, n);
    }
  }

  // ----- in a workspace keys tell scripts apart -----

  lemma {:induction false} AsksStayInWorkspace(env: Env, member: Package, script: string, tokens: seq<string>, b: Node,
      k: nat)
    requires Asks(env, member, script, tokens, Goes(b), k) && member in env.packages
    ensures b.member in env.packages
    decreases |tokens|
  {
    hide IsExec, IsCall, IsTurbo, HasScript, Accepted, RunnerOf, Matches;
    if manager, options, dashes, words, target :|
      IsExec(env, tokens, manager, options, dashes, words) && IsTarget(env, member, options, target)
      && k > 0 && |words| < |tokens| && Asks(env, target, script, words, Goes(b), k - 1)
    {
      AsksStayInWorkspace(env, target, script, words, b, k - 1);
    } else if manager, options, run, task, arguments, target :|
      IsCall(env, tokens, manager, options, run, task, arguments) && IsTarget(env, member, options, target)
      && !HasScript(target, task) && k > 0 && |[task] + arguments| < |tokens|
      && Asks(env, target, script, [task] + arguments, Goes(b), k - 1)
    {
      AsksStayInWorkspace(env, target, script, [task] + arguments, b, k - 1);
    }
  }

  lemma {:induction false} WayStaysInWorkspace(env: Env, path: seq<Node>)
    requires IsWay(env, path) && path[0].member in env.packages
    ensures path[|path| - 1].member in env.packages
    decreases |path|
  {
    hide Asks;
    if |path| == 1 { return; }
    assert Next(env, path[0], path[1]);
    var k: nat :| LeadsTo(env, path[0], path[1], k);
    var tokens :| Line(path[0], tokens) && Asks(env, path[0].member, path[0].script, tokens, Goes(path[1]), k);
    AsksStayInWorkspace(env, path[0].member, path[0].script, tokens, path[1], k);
    var rest := path[1..];
    forall i | 0 <= i < |rest| - 1 ensures Next(env, rest[i], rest[i + 1]) {
      assert rest[i] == path[i + 1] && rest[i + 1] == path[i + 2];
    }
    WayStaysInWorkspace(env, rest);
  }

  lemma {:induction false} WorkspaceKeysTellApart(env: Env, project: Package, purpose: Purpose)
    requires WorkspacePaths(env, project)
    ensures KeysTellApart(env, project, purpose)
  {
    hide Next;
    forall n | Reaches(env, project, purpose, n) ensures n.member in env.packages {
      var path :| IsWay(env, path) && Wanted(project, purpose, path[0]) && path[|path| - 1] == n;
      WayStaysInWorkspace(env, path);
    }
    forall a, b | Reaches(env, project, purpose, a) && Reaches(env, project, purpose, b) && Key(a) == Key(b)
      ensures a == b
    {
      ColonSplitsOnce(PathOf(a.member), a.script, PathOf(b.member), b.script);
    }
  }

  // ----- when tracing has no doubt -----

  /** Every script in reach can be expanded where lines lead to it: `level` bounds how deep each one lies,
      none lies deeper than the source allows, and each is clear with the levels left to it. */
  ghost predicate Fits(env: Env, project: Package, purpose: Purpose, level: Node -> nat, all: set<Node>) {
    && |all| < MAX_VISITED
    && (forall n :: Reaches(env, project, purpose, n) ==>
          n in all && level(n) <= MAX_DEPTH && Clear(env, n, MAX_DEPTH - level(n)))
    && (forall a, b, k: nat :: Reaches(env, project, purpose, a) && LeadsTo(env, a, b, k) ==>
          level(b) >= level(a) + k + 1)
  }

  lemma {:induction false} UnderstoodWithMore(env: Env, member: Package, tokens: seq<string>, depth: nat, less: nat)
    requires less <= depth <= MAX_DEPTH && Understood(env, member, tokens, MAX_DEPTH - depth)
    ensures Understood(env, member, tokens, MAX_DEPTH - less)
  {
    hide Events, Understood;
    UnderstoodIsClean(env, member, "", tokens, depth);
    EventsShallower(env, member, "", tokens, depth, less);
    CleanIsUnderstood(env, member, "", tokens, less);
  }

  lemma {:induction false} ClearWithMore(env: Env, a: Node, depth: nat, less: nat)
    requires less <= depth <= MAX_DEPTH && Clear(env, a, MAX_DEPTH - depth)
    ensures Clear(env, a, MAX_DEPTH - less)
  {
    hide Understood, Line;
    forall tokens | Line(a, tokens) ensures Understood(env, a.member, tokens, MAX_DEPTH - less) {
      UnderstoodWithMore(env, a.member, tokens, depth, less);
    }
  }

  lemma {:induction false} ReachesNext(env: Env, project: Package, purpose: Purpose, a: Node, b: Node)
    requires Reaches(env, project, purpose, a) && Next(env, a, b)
    ensures Reaches(env, project, purpose, b)
  {
    hide Wanted, Next;
    var path :| IsWay(env, path) && Wanted(project, purpose, path[0]) && path[|path| - 1] == a;
    var longer := path + [b];
    forall i | 0 <= i < |longer| - 1 ensures Next(env, longer[i], longer[i + 1]) {
      if i < |path| - 1 { assert longer[i] == path[i] && longer[i + 1] == path[i + 1]; }
    }
    assert IsWay(env, longer) && longer[0] == path[0] && longer[|longer| - 1] == b;
  }

  lemma {:induction false} DistinctFit(nodes: seq<Node>, all: set<Node>)
    requires DistinctKeys(nodes) && forall n :: n in nodes ==> n in all
    ensures |nodes| <= |all|
    decreases |nodes|
  {
    if nodes == [] { return; }
    var rest := nodes[1..];
    forall n | n in rest ensures n in all - {nodes[0]} {
      var j :| 0 <= j < |rest| && rest[j] == n;
      assert Key(nodes[0]) != Key(nodes[j + 1]);
    }
    forall i, j | 0 <= i < j < |rest| ensures Key(rest[i]) != Key(rest[j]) {
      assert rest[i] == nodes[i + 1] && rest[j] == nodes[j + 1];
    }
    DistinctFit(rest, all - {nodes[0]});
  }

  /** What keeps tracing free of doubt: only scripts in reach were visited, each under its own key, and
      the ones being expanded lie less deep than the next. */
  ghost predicate Calm(env: Env, project: Package, purpose: Purpose, level: Node -> nat, w: Walk, below: nat) {
    && w.reasons == [] && DistinctKeys(w.visited) && |w.visited| <= MAX_VISITED
    && (forall n :: n in w.visited ==> Reaches(env, project, purpose, n))
    && (forall n :: Reaches(env, project, purpose, n) && Key(n) in w.active ==> level(n) < below)
  }

  /** What one script may ask next. */
  ghost predicate Ahead(env: Env, project: Package, purpose: Purpose, level: Node -> nat, events: seq<Event>,
      below: nat)
  {
    && Clean(events)
    && forall e :: e in events && e.Delegate? ==>
         Reaches(env, project, purpose, e.node) && e.depth <= level(e.node) && below <= level(e.node)
  }

  lemma {:induction false} InvokeIsCalm(env: Env, project: Package, purpose: Purpose, level: Node -> nat,
      all: set<Node>, w: Walk, node: Node, depth: nat, below: nat)
    requires Fits(env, project, purpose, level, all) && KeysTellApart(env, project, purpose)
    requires Calm(env, project, purpose, level, w, below) && Reaches(env, project, purpose, node)
    requires depth <= level(node) && below <= level(node)
    ensures Calm(env, project, purpose, level, Invoke(env, w, node, depth), below)
    ensures Invoke(env, w, node, depth).active == w.active
    decreases if depth <= 18 then 18 - depth else 0, 0
  {
    hide NodeEvents, Process, Reaches, Clear, LeadsTo, Keys;
    DistinctFit(w.visited, all);
    assert Key(node) !in w.active;
    InvokeKeepsDistinct(env, w, node, depth);
    if Key(node) in Keys(w.visited) { return; }
    var events := NodeEvents(env, node, depth);
    NodeLooksAhead(env, project, purpose, level, all, node, depth);
    KeyIsNew(w.visited, node);
    assert Calm(env, project, purpose, level, Enter(w, node), level(node) + 1);
    ProcessIsCalm(env, project, purpose, level, all, Enter(w, node), events, level(node) + 1);
  }

  lemma KeyIsNew(nodes: seq<Node>, node: Node)
    requires DistinctKeys(nodes) && Key(node) !in Keys(nodes)
    ensures DistinctKeys(nodes + [node])
  {
    forall i | 0 <= i < |nodes| ensures Key(nodes[i]) != Key(node) { assert Keys(nodes)[i] in Keys(nodes); }
  }

  lemma {:induction false} NodeLooksAhead(env: Env, project: Package, purpose: Purpose, level: Node -> nat,
      all: set<Node>, node: Node, depth: nat)
    requires Fits(env, project, purpose, level, all) && Reaches(env, project, purpose, node)
    requires depth <= level(node)
    ensures Ahead(env, project, purpose, level, NodeEvents(env, node, depth), level(node) + 1)
  {
    hide NodeEvents, Reaches, Clear, Asks, Line;
    ClearWithMore(env, node, level(node), depth);
    CleanIffClear(env, node, depth);
    forall e | e in NodeEvents(env, node, depth) && e.Delegate?
      ensures Reaches(env, project, purpose, e.node) && e.depth <= level(e.node) && level(node) + 1 <= level(e.node)
    {
      var ask, k, tokens := FoundIsSaid(env, node, depth, e);
      assert LeadsTo(env, node, e.node, k);
      ReachesNext(env, project, purpose, node, e.node);
    }
  }

  lemma {:induction false} ProcessIsCalm(env: Env, project: Package, purpose: Purpose, level: Node -> nat,
      all: set<Node>, w: Walk, events: seq<Event>, below: nat)
    requires Fits(env, project, purpose, level, all) && KeysTellApart(env, project, purpose)
    requires Calm(env, project, purpose, level, w, below) && Ahead(env, project, purpose, level, events, below)
    ensures Calm(env, project, purpose, level, Process(env, w, events), below)
    ensures Process(env, w, events).active == w.active
    decreases DepthBudget(events), |events| + 1
  {
    hide Reaches, Invoke, Fits, KeysTellApart, DistinctKeys;
    if events == [] { return; }
    assert events == [events[0]] + events[1..];
    assert Ahead(env, project, purpose, level, events[1..], below) && events[0] in events;
    match events[0] {
      case Delegate(node, depth) =>
        InvokeIsCalm(env, project, purpose, level, all, w, node, depth, below);
        ProcessIsCalm(env, project, purpose, level, all, Invoke(env, w, node, depth), events[1..], below);
      case Execute(execution) =>
        ProcessIsCalm(env, project, purpose, level, all, w.(executions := w.executions + [execution]), events[1..],
          below);
      case Object(reason) => assert false;
    }
  }

  lemma {:induction false} RootsLookAhead(env: Env, project: Package, purpose: Purpose, level: Node -> nat,
      roots: seq<Node>)
    requires forall n :: n in roots ==> Reaches(env, project, purpose, n)
    ensures Ahead(env, project, purpose, level, DelegateRoots(roots), 0)
    decreases |roots|
  {
    hide Reaches;
    if roots == [] { return; }
    RootsLookAhead(env, project, purpose, level, roots[1..]);
  }

  /** Tracing doubts nothing when every script the lines lead to can be expanded where it lies. */
  lemma {:induction false} FittingLinesLeaveNoDoubt(env: Env, project: Package, purpose: Purpose, level: Node -> nat,
      all: set<Node>)
    requires Fits(env, project, purpose, level, all) && KeysTellApart(env, project, purpose)
    ensures TraceOf(env, project, purpose).reasons == []
  {
    hide Fits, KeysTellApart, Selected, NamedAfter, Starts;
    var roots := Roots(project, project.scripts, purpose);
    RootSetIsWanted(project, purpose);
    forall n | n in roots ensures Reaches(env, project, purpose, n) {
      assert IsWay(env, [n]) && Wanted(project, purpose, [n][0]) && [n][|[n]| - 1] == n;
    }
    RootsLookAhead(env, project, purpose, level, roots);
    ProcessIsCalm(env, project, purpose, level, all, START_WALK, DelegateRoots(roots), 0);
  }
}
