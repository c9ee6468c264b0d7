/** What a command line asks for, read off its words: which scripts it delegates to and which tools it
    runs. The tracer's expansion is proved to find exactly this, and to have no doubt exactly when the
    line is understood. */
module ScriptDelegation {
  import opened Text
  import opened ShellWords
  import opened ScriptGraphModel
  import opened ScriptGraphSafety

  // ----- the words of a package manager's options -----

  /** All members but the root; or those that a selector matches, as two words or as one. */
  datatype Choice =
    | Everywhere(flag: string)
    | Chosen(flag: string, selector: string)
    | ChosenBy(flag: string, selector: string)

  function Words(o: Choice): seq<string> {
    match o
    case Everywhere(flag) => [flag]
    case Chosen(flag, selector) => [flag, selector]
    case ChosenBy(flag, selector) => [flag + "=" + selector]
  }

  function Render(options: seq<Choice>): seq<string> {
    if options == [] then [] else Words(options[0]) + Render(options[1..])
  }

  predicate Manager(word: string) {
    word in ["npm", "pnpm", "yarn"]
  }

  predicate Legal(manager: string, o: Choice) {
    match o
    case Everywhere(flag) => flag in ["-r", "--recursive", "--workspaces"]
    case Chosen(flag, _) => flag in ["--filter", "--workspace"] || (manager == "yarn" && flag == "workspace")
    case ChosenBy(flag, _) => flag in ["--filter", "--workspace"]
  }

  predicate DotsAt(s: string, i: nat) {
    i + 2 < |s| && s[i] == '.' && s[i + 1] == '.' && s[i + 2] == '.'
  }

  /** A selector without negation, braces, brackets, escapes, `^` and `...`. */
  predicate PlainSelector(s: string) {
    && |s| <= 500
    && (forall c :: c in s ==> c !in "!{}[]\\^")
    && !(exists i :: 0 <= i < |s| && DotsAt(s, i))
  }

  predicate Matches(env: Env, selector: string, p: Package) {
    if StartsWith(selector, "./") then env.matches(PathOf(p), selector[2..])
    else env.matches(if p.name == None then "" else p.name.value, selector)
  }

  /** The option means something: its selector is plain and matches some member. */
  predicate Meant(env: Env, o: Choice) {
    o.Everywhere? || (PlainSelector(o.selector) && exists p :: p in env.packages && Matches(env, o.selector, p))
  }

  predicate AllMeant(env: Env, manager: string, options: seq<Choice>) {
    forall o :: o in options ==> Legal(manager, o) && Meant(env, o)
  }

  /** Where the command runs: in the package itself, or where the last option says. */
  predicate IsTarget(env: Env, member: Package, options: seq<Choice>, p: Package) {
    if options == [] then p == member
    else
      var last := options[|options| - 1];
      p in env.packages && if last.Everywhere? then p.path != Some(".") else Matches(env, last.selector, p)
  }

  /** `npm <options> exec [--] <words>`. */
  predicate IsExec(env: Env, tokens: seq<string>, manager: string, options: seq<Choice>, dashes: bool,
      words: seq<string>)
  {
    && Manager(manager) && AllMeant(env, manager, options)
    && (!dashes ==> words == [] || words[0] != "--")
    && tokens == [manager] + (Render(options) + (["exec"] + ((if dashes then ["--"] else []) + words)))
  }

  /** `npm <options> [run] <task> <arguments>`. */
  predicate IsCall(env: Env, tokens: seq<string>, manager: string, options: seq<Choice>, run: seq<string>, task: string,
      arguments: seq<string>)
  {
    && Manager(manager) && AllMeant(env, manager, options)
    && run in [[], ["run"], ["run-script"]] && !StartsWith(task, "-")
    && (run == [] ==> task !in ["run", "run-script", "exec"] && !(manager == "yarn" && task == "workspace"))
    && tokens == [manager] + (Render(options) + (run + ([task] + arguments)))
  }

  predicate IsFilter(f: Choice) {
    !f.Everywhere? && f.flag == "--filter" && PlainSelector(f.selector)
  }

  /** `turbo run <task> <filters>`, where turbo is declared. */
  predicate IsTurbo(env: Env, member: Package, tokens: seq<string>, task: string, filters: seq<Choice>) {
    && DeclaredTool(env, member, "turbo") && !StartsWith(task, "-")
    && (forall f :: f in filters ==> IsFilter(f))
    && tokens == ["turbo", "run", task] + Render(filters)
  }

  /** Another member that has the task and passes every filter. */
  predicate TurboTarget(env: Env, member: Package, task: string, filters: seq<Choice>, p: Package) {
    && p in env.packages && p.path != Some(PathOf(member)) && HasScript(p, task)
    && forall f :: f in filters ==> f.Everywhere? || Matches(env, f.selector, p)
  }

  // ----- what a command asks for -----

  datatype Ask = Goes(node: Node) | Does(execution: Execution)

  /** `k` counts the commands that hand the rest of their words on. */
  ghost predicate Asks(env: Env, member: Package, script: string, tokens: seq<string>, ask: Ask, k: nat)
    decreases |tokens|
  {
    || (exists manager, options, dashes, words, target ::
          IsExec(env, tokens, manager, options, dashes, words) && IsTarget(env, member, options, target)
          && k > 0 && |words| < |tokens| && Asks(env, target, script, words, ask, k - 1))
    || (exists manager, options, run, task, arguments, target ::
          IsCall(env, tokens, manager, options, run, task, arguments) && IsTarget(env, member, options, target)
          && (if HasScript(target, task) then
                arguments == [] && k == 0 && ask == Goes(Node(target, task))
              else
                manager != "npm" && RunnerOf(task).Some? && k > 0 && |[task] + arguments| < |tokens|
                && Asks(env, target, script, [task] + arguments, ask, k - 1)))
    || (exists task, filters ::
          IsTurbo(env, member, tokens, task, filters) && k == 0 && ask.Goes? && ask.node.script == task
          && TurboTarget(env, member, task, filters, ask.node.member))
    || (tokens != [] && k == 0 && ask.Does? && Accepted(env, ask.execution)
        && ask.execution.packagePath == PathOf(member) && ask.execution.script == script
        && [ask.execution.executable] + ask.execution.arguments == tokens)
  }

  /** The line is within the supported grammar, with so many commands handing their words on. */
  ghost predicate Understood(env: Env, member: Package, tokens: seq<string>, levels: nat)
    decreases |tokens|
  {
    || tokens == [] || tokens[0] in ["echo", "printf", "true"]
    || (exists manager, options, dashes, words ::
          IsExec(env, tokens, manager, options, dashes, words)
          && forall target :: IsTarget(env, member, options, target) ==>
               levels > 0 && |words| < |tokens| && Understood(env, target, words, levels - 1))
    || (exists manager, options, run, task, arguments ::
          IsCall(env, tokens, manager, options, run, task, arguments)
          && forall target :: IsTarget(env, member, options, target) ==>
               (if HasScript(target, task) then
                  arguments == []
                else
                  manager != "npm" && RunnerOf(task).Some? && levels > 0 && |[task] + arguments| < |tokens|
                  && Understood(env, target, [task] + arguments, levels - 1)))
    || (exists task, filters, p ::
          IsTurbo(env, member, tokens, task, filters) && TurboTarget(env, member, task, filters, p))
    || (!Manager(tokens[0]) && tokens[0] != "turbo"
        && (|| OnlyInforms(tokens[0], tokens[1..])
            || IsNodeTest(tokens[0], tokens[1..])
            || (RunnerOf(tokens[0]).Some? && DeclaredTool(env, member, RunnerOf(tokens[0]).value.dependency))))
  }

  // ----- reading options -----

  function TargetsBy(env: Env, o: Choice): seq<Package> {
    if o.Everywhere? then Filter(env.packages, (p: Package) => p.path != Some("."))
    else Filter(env.packages, (p: Package) => Matches(env, o.selector, p))
  }

  function TargetsAfter(env: Env, targets: seq<Package>, options: seq<Choice>): seq<Package> {
    if options == [] then targets else TargetsBy(env, options[|options| - 1])
  }

  lemma TargetsAreTargets(env: Env, member: Package, options: seq<Choice>)
    ensures forall p :: p in TargetsAfter(env, [member], options) <==> IsTarget(env, member, options, p)
  {
  }

  lemma {:induction false} HasDots(s: string)
    ensures HasPart(s, "...") <==> exists i :: 0 <= i < |s| && DotsAt(s, i)
  {
    if s == "" { return; }
    HasDots(s[1..]);
    assert StartsWith(s, "...") <==> DotsAt(s, 0);
    if i :| 0 <= i < |s[1..]| && DotsAt(s[1..], i) { assert DotsAt(s, i + 1); }
    if i :| 1 <= i < |s| && DotsAt(s, i) { assert DotsAt(s[1..], i - 1); }
  }

  lemma PlainIsStatic(s: string)
    ensures PlainSelector(s) <==> StaticSelector(s)
  {
    HasDots(s);
  }

  /** A plain selector selects its matches. */
  lemma {:induction false} SelectsMatches(env: Env, s: string)
    ensures Select(env, s).Some? <==> PlainSelector(s)
    ensures Select(env, s).Some? ==> Select(env, s).value == Filter(env.packages, (p: Package) => Matches(env, s, p))
  {
    PlainIsStatic(s);
    if PlainSelector(s) {
      hide PlainSelector, StaticSelector;
      if StartsWith(s, "./") {
        SameFilter(env.packages, (p: Package) => env.matches(PathOf(p), s[2..]), (p: Package) => Matches(env, s, p));
      } else {
        SameFilter(env.packages, (p: Package) => env.matches(if p.name.Some? then p.name.value else "", s),
          (p: Package) => Matches(env, s, p));
      }
    }
  }

  lemma SameFilter<T(!new)>(items: seq<T>, f: T -> bool, g: T -> bool)
    requires forall x :: f(x) == g(x)
    ensures Filter(items, f) == Filter(items, g)
  {
  }

  lemma {:induction false} EqualsSplits(flag: string, rest: string)
    requires '=' !in flag
    ensures AfterEquals(flag + "=" + rest) == rest
  {
    if flag == "" { assert flag + "=" + rest == ['='] + rest; }
    else {
      assert (flag + "=" + rest)[1..] == flag[1..] + "=" + rest;
      EqualsSplits(flag[1..], rest);
    }
  }

  /** One option is read. */
  lemma {:induction false} ReadOne(env: Env, manager: string, targets: seq<Package>, o: Choice, rest: seq<string>)
    requires Legal(manager, o) && Meant(env, o)
    ensures ReadPrefix(env, manager, targets, Words(o) + rest) == ReadPrefix(env, manager, TargetsBy(env, o), rest)
  {
    hide Matches, PlainSelector, Filter;
    var tokens := Words(o) + rest;
    assert tokens[0] == Words(o)[0];
    match o {
      case Everywhere(flag) => assert tokens[1..] == rest;
      case Chosen(flag, selector) =>
        assert tokens[1] == selector && tokens[2..] == rest;
        SelectsMatches(env, selector);
        SomeMatch(env, selector);
      case ChosenBy(flag, selector) =>
        assert tokens[1..] == rest;
        EqualsSplits(flag, selector);
        OneWordOption(flag, selector);
        SelectsMatches(env, selector);
        SomeMatch(env, selector);
    }
  }

  lemma SomeMatch(env: Env, selector: string)
    requires exists p :: p in env.packages && Matches(env, selector, p)
    ensures Filter(env.packages, (p: Package) => Matches(env, selector, p)) != []
  {
    var p :| p in env.packages && Matches(env, selector, p);
    assert p in Filter(env.packages, (q: Package) => Matches(env, selector, q));
  }

  lemma OneWordOption(flag: string, selector: string)
    requires flag in ["--filter", "--workspace"]
    ensures var token := flag + "=" + selector;
      && token !in ["exec", "-r", "--recursive", "--workspaces", "--filter", "--workspace", "workspace"]
      && (StartsWith(token, "--workspace=") || StartsWith(token, "--filter="))
  {
    var token := flag + "=" + selector;
    assert token[|flag|] == '=' && token[..|flag|] == flag;
    assert token[..|flag| + 1] == flag + "=";
  }

  lemma {:induction false} ReadFollows(env: Env, manager: string, targets: seq<Package>, options: seq<Choice>,
      tail: seq<string>)
    requires AllMeant(env, manager, options)
    ensures ReadPrefix(env, manager, targets, Render(options) + tail) ==
      ReadPrefix(env, manager, TargetsAfter(env, targets, options), tail)
    decreases |options|
  {
    hide ReadPrefix, Legal, Meant, TargetsBy;
    if options == [] { assert Render(options) + tail == tail; return; }
    assert Render(options) + tail == Words(options[0]) + (Render(options[1..]) + tail);
    ReadOne(env, manager, targets, options[0], Render(options[1..]) + tail);
    ReadFollows(env, manager, TargetsBy(env, options[0]), options[1..], tail);
  }

  predicate OptionWord(manager: string, word: string) {
    || word in ["-r", "--recursive", "--workspaces", "--filter", "--workspace"]
    || (manager == "yarn" && word == "workspace")
    || StartsWith(word, "--workspace=") || StartsWith(word, "--filter=")
  }

  /** What the first words of an accepted prefix are. */
  lemma {:induction false} FirstOption(env: Env, manager: string, targets: seq<Package>, tokens: seq<string>)
      returns (o: Choice, rest: seq<string>)
    requires tokens != [] && OptionWord(manager, tokens[0]) && ReadPrefix(env, manager, targets, tokens).Prefix?
    ensures Legal(manager, o) && Meant(env, o) && tokens == Words(o) + rest
  {
    hide PlainSelector, Filter, StaticSelector;
    var token := tokens[0];
    if token in ["-r", "--recursive", "--workspaces"] { return Everywhere(token), tokens[1..]; }
    if token in ["--filter", "--workspace"] || (manager == "yarn" && token == "workspace") {
      SelectsMatches(env, tokens[1]);
      SomeSelected(env, tokens[1]);
      return Chosen(token, tokens[1]), tokens[2..];
    }
    var flag := if StartsWith(token, "--workspace=") then "--workspace" else "--filter";
    var selector := token[|flag| + 1..];
    assert token == flag + "=" + selector;
    EqualsSplits(flag, selector);
    SelectsMatches(env, selector);
    SomeSelected(env, selector);
    return ChosenBy(flag, selector), tokens[1..];
  }

  lemma SomeSelected(env: Env, selector: string)
    requires Filter(env.packages, (p: Package) => Matches(env, selector, p)) != []
    ensures exists p :: p in env.packages && Matches(env, selector, p)
  {
    var p := Filter(env.packages, (q: Package) => Matches(env, selector, q))[0];
    assert p in Filter(env.packages, (q: Package) => Matches(env, selector, q));
  }

  lemma {:induction false} ReadParses(env: Env, manager: string, targets: seq<Package>, tokens: seq<string>)
      returns (options: seq<Choice>, tail: seq<string>)
    requires ReadPrefix(env, manager, targets, tokens).Prefix?
    ensures AllMeant(env, manager, options) && tokens == Render(options) + tail
    ensures tail == [] || !OptionWord(manager, tail[0])
    ensures ReadPrefix(env, manager, targets, tokens) ==
      ReadPrefix(env, manager, TargetsAfter(env, targets, options), tail)
    decreases |tokens|
  {
    hide ReadPrefix, Legal, Meant, TargetsBy, OptionWord;
    if tokens == [] || !OptionWord(manager, tokens[0]) { return [], tokens; }
    var o, rest := FirstOption(env, manager, targets, tokens);
    ReadOne(env, manager, targets, o, rest);
    options, tail := ReadParses(env, manager, TargetsBy(env, o), rest);
    options := [o] + options;
    assert Render(options) == Words(o) + Render(options[1..]);
    assert tokens == Render(options) + tail;
    ReadFollows(env, manager, targets, options, tail);
  }

  // ----- reading a package manager's command -----

  function CallOf(rest: seq<string>): seq<string> {
    if rest != [] && rest[0] in ["run", "run-script"] then rest[1..] else rest
  }

  lemma ReadStops(env: Env, manager: string, targets: seq<Package>, tail: seq<string>)
    requires tail != [] && tail[0] != "exec" && !OptionWord(manager, tail[0])
    ensures ReadPrefix(env, manager, targets, tail) == Prefix(targets, false, tail)
  {
    hide StartsWith, Select, Filter;
  }

  lemma {:induction false} ExecReads(env: Env, member: Package, tokens: seq<string>, manager: string,
      options: seq<Choice>, dashes: bool, words: seq<string>)
    requires IsExec(env, tokens, manager, options, dashes, words)
    ensures tokens != [] && tokens[0] == manager && Manager(manager)
    ensures ReadPrefix(env, manager, [member], tokens[1..]) == Prefix(TargetsAfter(env, [member], options), true, words)
  {
    hide AllMeant, TargetsAfter;
    var tail := ["exec"] + ((if dashes then ["--"] else []) + words);
    assert tokens[1..] == Render(options) + tail;
    ReadFollows(env, manager, [member], options, tail);
    if dashes { assert tail == ["exec", "--"] + words; assert tail[2..] == words; }
    else { assert tail[1..] == words; }
  }

  lemma {:induction false} CallReads(env: Env, member: Package, tokens: seq<string>, manager: string,
      options: seq<Choice>, run: seq<string>, task: string, arguments: seq<string>)
    requires IsCall(env, tokens, manager, options, run, task, arguments)
    ensures tokens != [] && tokens[0] == manager && Manager(manager)
    ensures ReadPrefix(env, manager, [member], tokens[1..]) ==
      Prefix(TargetsAfter(env, [member], options), false, run + ([task] + arguments))
    ensures CallOf(run + ([task] + arguments)) == [task] + arguments && !StartsWith(task, "-")
  {
    hide AllMeant, TargetsAfter, ReadPrefix;
    var tail := run + ([task] + arguments);
    assert tokens[1..] == Render(options) + tail;
    ReadFollows(env, manager, [member], options, tail);
    if run == [] {
      assert tail == [task] + arguments;
      DashedOptions(manager, task);
      assert !OptionWord(manager, task);
    } else {
      assert tail[0] == run[0] && tail[1..] == [task] + arguments;
      assert run[0][0] == 'r';
      DashedOptions(manager, run[0]);
      assert !OptionWord(manager, run[0]);
    }
    ReadStops(env, manager, TargetsAfter(env, [member], options), tail);
  }

  lemma DashedOptions(manager: string, word: string)
    ensures OptionWord(manager, word) ==> StartsWith(word, "-") || (manager == "yarn" && word == "workspace")
  {
  }

  lemma {:induction false} ReadsExec(env: Env, member: Package, tokens: seq<string>)
      returns (options: seq<Choice>, dashes: bool)
    requires tokens != [] && Manager(tokens[0])
    requires ReadPrefix(env, tokens[0], [member], tokens[1..]).Prefix? && ReadPrefix(env, tokens[0], [member],
      tokens[1..]).exec
    ensures var prefix := ReadPrefix(env, tokens[0], [member], tokens[1..]);
      IsExec(env, tokens, tokens[0], options, dashes, prefix.rest) && prefix.targets == TargetsAfter(env, [member],
        options)
  {
    hide AllMeant, TargetsAfter;
    var prefix := ReadPrefix(env, tokens[0], [member], tokens[1..]);
    var tail;
    options, tail := ReadParses(env, tokens[0], [member], tokens[1..]);
    dashes := |tail| > 1 && tail[1] == "--";
    assert tail == ["exec"] + ((if dashes then ["--"] else []) + prefix.rest);
    assert tokens == [tokens[0]] + (Render(options) + tail);
  }

  lemma {:induction false} ReadsCall(env: Env, member: Package, tokens: seq<string>)
      returns (options: seq<Choice>, run: seq<string>)
    requires tokens != [] && Manager(tokens[0])
    requires ReadPrefix(env, tokens[0], [member], tokens[1..]).Prefix?
    requires var prefix := ReadPrefix(env, tokens[0], [member], tokens[1..]);
      !prefix.exec && CallOf(prefix.rest) != [] && !StartsWith(CallOf(prefix.rest)[0], "-")
    ensures var prefix := ReadPrefix(env, tokens[0], [member], tokens[1..]);
      var call := CallOf(prefix.rest);
      && IsCall(env, tokens, tokens[0], options, run, call[0], call[1..])
      && prefix.targets == TargetsAfter(env, [member], options)
  {
    hide AllMeant, TargetsAfter, Render, OptionWord, StartsWith;
    var prefix := ReadPrefix(env, tokens[0], [member], tokens[1..]);
    var call := CallOf(prefix.rest);
    var tail;
    options, tail := ReadParses(env, tokens[0], [member], tokens[1..]);
    if tail != [] && tail[0] != "exec" { ReadStops(env, tokens[0], TargetsAfter(env, [member], options), tail); }
    assert prefix.rest == tail;
    run := if tail[0] in ["run", "run-script"] then [tail[0]] else [];
    assert tail == run + ([call[0]] + call[1..]);
    assert tokens == [tokens[0]] + (Render(options) + tail);
  }

  lemma {:induction false} EachTargetHas(env: Env, targets: seq<Package>, script: string, tokens: seq<string>,
      depth: nat)
    ensures forall e :: e in EachTarget(env, targets, script, tokens, depth) <==>
      exists t :: t in targets && e in Events(env, t, script, tokens, depth)
    decreases |targets|
  {
    hide Events;
    if targets == [] { return; }
    EachTargetHas(env, targets[1..], script, tokens, depth);
    var first, others := Events(env, targets[0], script, tokens, depth), EachTarget(env, targets[1..], script, tokens,
      depth);
    assert EachTarget(env, targets, script, tokens, depth) == first + others;
    forall t ensures t in targets <==> t == targets[0] || t in targets[1..] {
      assert targets == [targets[0]] + targets[1..];
    }
  }

  lemma {:induction false} EachTaskHas(env: Env, targets: seq<Package>, script: string, manager: string,
      call: seq<string>, depth: nat)
    requires call != [] && depth <= MAX_DEPTH
    ensures forall e :: e in EachTask(env, targets, script, manager, call, depth) <==>
      exists t :: t in targets && e in TaskEvents(env, t, script, manager, call, depth)
    decreases |targets|
  {
    hide TaskEvents;
    if targets == [] { return; }
    EachTaskHas(env, targets[1..], script, manager, call, depth);
    var first := TaskEvents(env, targets[0], script, manager, call, depth);
    assert EachTask(env, targets, script, manager, call, depth) == first + EachTask(env, targets[1..], script, manager,
      call, depth);
    forall t ensures t in targets <==> t == targets[0] || t in targets[1..] {
      assert targets == [targets[0]] + targets[1..];
    }
  }

  // ----- reading a turbo command -----

  predicate PassesAll(env: Env, filters: seq<Choice>, p: Package) {
    forall f :: f in filters ==> f.Everywhere? || Matches(env, f.selector, p)
  }

  lemma NarrowNothing(env: Env, targets: seq<Package>)
    ensures NarrowTurbo(env, targets, []) == Narrowed(targets)
  {
  }

  lemma {:induction false} NarrowOne(env: Env, targets: seq<Package>, f: Choice, rest: seq<string>)
    requires IsFilter(f) && Select(env, f.selector).Some?
    ensures NarrowTurbo(env, targets, Words(f) + rest) ==
      NarrowTurbo(env, Filter(targets, (p: Package) => p in Select(env, f.selector).value), rest)
  {
    hide Filter, Select, PlainSelector;
    var tokens := Words(f) + rest;
    if f.Chosen? { assert tokens[0] == f.flag && tokens[1] == f.selector && tokens[2..] == rest; }
    else {
      OneWordOption(f.flag, f.selector);
      assert tokens[0] == "--filter=" + f.selector && tokens[0][9..] == f.selector && tokens[1..] == rest;
    }
  }

  lemma {:induction false} NarrowFollows(env: Env, targets: seq<Package>, filters: seq<Choice>)
    requires (forall f :: f in filters ==> IsFilter(f)) && (forall p :: p in targets ==> p in env.packages)
    ensures NarrowTurbo(env, targets, Render(filters)).Narrowed?
    ensures forall p :: p in NarrowTurbo(env, targets, Render(filters)).targets <==>
      p in targets && PassesAll(env, filters, p)
    decreases |filters|
  {
    hide Matches, PlainSelector, NarrowTurbo, Select;
    if filters == [] { NarrowNothing(env, targets); return; }
    var f, rest := filters[0], filters[1..];
    assert IsFilter(f);
    SelectsMatches(env, f.selector);
    var kept := Filter(targets, (p: Package) => p in Select(env, f.selector).value);
    NarrowOne(env, targets, f, Render(rest));
    NarrowFollows(env, kept, rest);
    forall p ensures PassesAll(env, filters, p) <==> Matches(env, f.selector, p) && PassesAll(env, rest, p) {
      assert filters == [f] + rest;
    }
  }

  lemma {:induction false} NarrowParses(env: Env, targets: seq<Package>, tokens: seq<string>)
    returns (filters: seq<Choice>)
    requires NarrowTurbo(env, targets, tokens).Narrowed?
    ensures (forall f :: f in filters ==> IsFilter(f)) && tokens == Render(filters)
    decreases |tokens|
  {
    hide PlainSelector, Filter, StaticSelector;
    if tokens == [] { return []; }
    var two := tokens[0] == "--filter";
    var selector := if two then tokens[1] else tokens[0][9..];
    var f := if two then Chosen("--filter", selector) else ChosenBy("--filter", selector);
    var rest := if two then tokens[2..] else tokens[1..];
    SelectsMatches(env, selector);
    if !two { assert tokens[0] == "--filter" + "=" + selector; }
    assert tokens == Words(f) + rest;
    filters := NarrowParses(env, Filter(targets, (p: Package) => p in Select(env, selector).value), rest);
    filters := [f] + filters;
    assert Render(filters) == Words(f) + Render(filters[1..]);
  }

  function TaskHolders(env: Env, member: Package, task: string): seq<Package> {
    Filter(env.packages, (p: Package) => p.path != Some(PathOf(member)) && HasScript(p, task))
  }

  lemma TurboChooses(env: Env, member: Package, task: string, filters: seq<Choice>)
    requires forall f :: f in filters ==> IsFilter(f)
    ensures NarrowTurbo(env, TaskHolders(env, member, task), Render(filters)).Narrowed?
    ensures forall p :: p in NarrowTurbo(env, TaskHolders(env, member, task), Render(filters)).targets <==>
      TurboTarget(env, member, task, filters, p)
  {
    hide NarrowTurbo, Matches, IsFilter, Render, HasScript;
    NarrowFollows(env, TaskHolders(env, member, task), filters);
  }

  lemma TurboExpands(env: Env, member: Package, tokens: seq<string>, task: string, filters: seq<Choice>, depth: nat)
    requires IsTurbo(env, member, tokens, task, filters) && depth <= MAX_DEPTH
    requires NarrowTurbo(env, TaskHolders(env, member, task), Render(filters)).Narrowed?
    ensures var chosen := NarrowTurbo(env, TaskHolders(env, member, task), Render(filters)).targets;
      TurboEvents(env, member, tokens[1..], depth) ==
      if chosen == [] then [Object("Turbo task did not resolve to any member scripts.")]
      else DelegateAll(chosen, task, depth + 1)
  {
    hide DeclaredTool, NarrowTurbo, Filter, HasScript, IsFilter, Render, DelegateAll, StartsWith;
    var rest := tokens[1..];
    assert rest[0] == "run" && rest[1] == task && rest[2..] == Render(filters);
  }

  /** A turbo command is accepted exactly when it reaches a member, and delegates to those it reaches. */
  lemma {:induction false} TurboReads(env: Env, member: Package, tokens: seq<string>, task: string,
      filters: seq<Choice>, depth: nat)
    requires IsTurbo(env, member, tokens, task, filters) && depth <= MAX_DEPTH
    ensures Clean(TurboEvents(env, member, tokens[1..], depth)) <==>
      exists p :: TurboTarget(env, member, task, filters, p)
    ensures forall p :: TurboTarget(env, member, task, filters, p) <==>
      Delegate(Node(p, task), depth + 1) in TurboEvents(env, member, tokens[1..], depth)
  {
    hide DeclaredTool, NarrowTurbo, TaskHolders, IsFilter, Render, TurboEvents, TurboTarget, DelegateAll;
    TurboChooses(env, member, task, filters);
    TurboExpands(env, member, tokens, task, filters, depth);
    var chosen := NarrowTurbo(env, TaskHolders(env, member, task), Render(filters)).targets;
    DelegatesAll(chosen, task, depth + 1);
    if chosen != [] { assert chosen[0] in chosen; }
    else { assert TurboEvents(env, member, tokens[1..], depth)[0] in TurboEvents(env, member, tokens[1..], depth); }
  }

  lemma {:induction false} DelegatesAll(targets: seq<Package>, task: string, depth: nat)
    requires depth <= 17
    ensures forall e :: e in DelegateAll(targets, task, depth) <==>
      e.Delegate? && e.depth == depth && e.node.script == task && e.node.member in targets
  {
    if targets != [] {
      DelegatesAll(targets[1..], task, depth);
      assert targets == [targets[0]] + targets[1..];
    }
  }

  lemma {:induction false} ReadsTurbo(env: Env, member: Package, tokens: seq<string>, depth: nat)
      returns (task: string, filters: seq<Choice>)
    requires tokens != [] && tokens[0] == "turbo" && depth <= MAX_DEPTH
    requires exists e :: e in TurboEvents(env, member, tokens[1..], depth) && !e.Object?
    ensures IsTurbo(env, member, tokens, task, filters)
    ensures forall e :: e in TurboEvents(env, member, tokens[1..], depth) ==>
      e.Delegate? && e.depth == depth + 1 && e.node.script == task
      && TurboTarget(env, member, task, filters, e.node.member)
  {
    hide DeclaredTool, NarrowTurbo, Filter, IsFilter, Render, TurboTarget, HasScript, DelegateAll;
    var rest := tokens[1..];
    task := rest[1];
    var targets := TaskHolders(env, member, task);
    filters := NarrowParses(env, targets, rest[2..]);
    assert tokens == ["turbo", "run", task] + Render(filters);
    TurboReads(env, member, tokens, task, filters, depth);
    var chosen := NarrowTurbo(env, targets, rest[2..]).targets;
    DelegatesAll(chosen, task, depth + 1);
  }

  // ----- the expansion finds what the words ask for, and nothing else -----

  function EventOf(ask: Ask, depth: nat): Event {
    match ask
    case Goes(node) => Delegate(node, depth + 1)
    case Does(execution) => Execute(execution)
  }

  lemma NodeIsNoRunner()
    ensures RunnerOf("node") == None
  {
  }

  lemma RunIsAsked(env: Env, member: Package, script: string, tokens: seq<string>, x: Execution)
    requires tokens != []
    ensures Execute(x) in RunEvents(env, member, script, tokens[0], tokens[1..]) <==>
      Accepted(env, x) && x.packagePath == PathOf(member) && x.script == script && [x.executable] + x.arguments == tokens
  {
    hide OnlyInforms, RunsNothing, RunnerOf, Declares;
    NodeIsNoRunner();
    if [x.executable] + x.arguments == tokens {
      assert x.executable == tokens[0] && x.arguments == tokens[1..];
    }
    assert [tokens[0]] + tokens[1..] == tokens;
  }

  lemma AskedByExec(env: Env, member: Package, script: string, tokens: seq<string>, manager: string,
      options: seq<Choice>, dashes: bool, words: seq<string>, target: Package, ask: Ask, k: nat)
    requires IsExec(env, tokens, manager, options, dashes, words) && IsTarget(env, member, options, target)
    requires |words| < |tokens| && Asks(env, target, script, words, ask, k)
    ensures Asks(env, member, script, tokens, ask, k + 1)
  {
    hide IsExec, IsCall, IsTurbo, IsTarget, TurboTarget, Accepted, RunnerOf;
  }

  lemma AskedByCall(env: Env, member: Package, script: string, tokens: seq<string>, manager: string,
      options: seq<Choice>, run: seq<string>, task: string, arguments: seq<string>, target: Package, ask: Ask, k: nat)
    requires IsCall(env, tokens, manager, options, run, task, arguments) && IsTarget(env, member, options, target)
    requires !HasScript(target, task) && manager != "npm" && RunnerOf(task).Some?
    requires |[task] + arguments| < |tokens| && Asks(env, target, script, [task] + arguments, ask, k)
    ensures Asks(env, member, script, tokens, ask, k + 1)
  {
    hide IsExec, IsCall, IsTurbo, IsTarget, TurboTarget, Accepted, RunnerOf;
  }

  lemma AskedOutright(env: Env, member: Package, script: string, tokens: seq<string>, manager: string,
      options: seq<Choice>, run: seq<string>, task: string, target: Package)
    requires IsCall(env, tokens, manager, options, run, task, []) && IsTarget(env, member, options, target)
    requires HasScript(target, task)
    ensures Asks(env, member, script, tokens, Goes(Node(target, task)), 0)
  {
    hide IsExec, IsCall, IsTurbo, IsTarget, TurboTarget, Accepted, RunnerOf;
  }

  lemma AskedByTurbo(env: Env, member: Package, script: string, tokens: seq<string>, task: string, filters: seq<Choice>,
      target: Package)
    requires IsTurbo(env, member, tokens, task, filters) && TurboTarget(env, member, task, filters, target)
    ensures Asks(env, member, script, tokens, Goes(Node(target, task)), 0)
  {
    hide IsExec, IsCall, IsTurbo, IsTarget, TurboTarget, Accepted, RunnerOf;
  }

  lemma AskedByRun(env: Env, member: Package, script: string, tokens: seq<string>, x: Execution)
    requires Accepted(env, x) && x.packagePath == PathOf(member) && x.script == script
    requires [x.executable] + x.arguments == tokens
    ensures Asks(env, member, script, tokens, Does(x), 0)
  {
    hide IsExec, IsCall, IsTurbo, IsTarget, TurboTarget, Accepted, RunnerOf;
  }

  /** Whatever the expansion finds, the words ask for. */
  lemma {:induction false} FoundIsAsked(env: Env, member: Package, script: string, tokens: seq<string>, depth: nat,
      e: Event) returns (ask: Ask, k: nat)
    requires e in Events(env, member, script, tokens, depth) && !e.Object?
    ensures e == EventOf(ask, depth + k) && Asks(env, member, script, tokens, ask, k)
    decreases |tokens|, 1
  {
    hide ReadPrefix, TurboEvents, RunEvents, EachTarget, EachTask, IsTurbo, TurboTarget, Accepted, StartsWith, Asks;
    var executable := tokens[0];
    if Manager(executable) {
      if ReadPrefix(env, executable, [member], tokens[1..]).exec {
        ask, k := FoundByExec(env, member, script, tokens, depth, e);
      } else {
        ask, k := FoundByCall(env, member, script, tokens, depth, e);
      }
    } else if executable == "turbo" {
      var task, filters := ReadsTurbo(env, member, tokens, depth);
      ask, k := Goes(e.node), 0;
      AskedByTurbo(env, member, script, tokens, task, filters, e.node.member);
    } else {
      RunsOnly(env, member, script, tokens, e);
      RunIsAsked(env, member, script, tokens, e.execution);
      ask, k := Does(e.execution), 0;
      AskedByRun(env, member, script, tokens, e.execution);
    }
  }

  lemma {:induction false} FoundByExec(env: Env, member: Package, script: string, tokens: seq<string>, depth: nat,
      e: Event) returns (ask: Ask, k: nat)
    requires tokens != [] && Manager(tokens[0]) && depth <= MAX_DEPTH && !e.Object?
    requires var prefix := ReadPrefix(env, tokens[0], [member], tokens[1..]);
      prefix.Prefix? && prefix.exec && e in EachTarget(env, prefix.targets, script, prefix.rest, depth + 1)
    ensures e == EventOf(ask, depth + k) && Asks(env, member, script, tokens, ask, k)
    decreases |tokens|, 0
  {
    hide ReadPrefix, EachTarget, Events, IsExec, IsTarget, TargetsAfter, Asks;
    var prefix := ReadPrefix(env, tokens[0], [member], tokens[1..]);
    var options, dashes := ReadsExec(env, member, tokens);
    EachTargetHas(env, prefix.targets, script, prefix.rest, depth + 1);
    var target :| target in prefix.targets && e in Events(env, target, script, prefix.rest, depth + 1);
    TargetsAreTargets(env, member, options);
    ask, k := FoundIsAsked(env, target, script, prefix.rest, depth + 1, e);
    AskedByExec(env, member, script, tokens, tokens[0], options, dashes, prefix.rest, target, ask, k);
    k := k + 1;
  }

  lemma TaskFound(env: Env, target: Package, script: string, manager: string, call: seq<string>, depth: nat, e: Event)
    requires call != [] && depth <= MAX_DEPTH && !e.Object?
    requires e in TaskEvents(env, target, script, manager, call, depth)
    ensures HasScript(target, call[0]) ==> |call| == 1 && e == Delegate(Node(target, call[0]), depth + 1)
    ensures !HasScript(target, call[0]) ==>
      manager != "npm" && RunnerOf(call[0]).Some? && e in Events(env, target, script, call, depth + 1)
  {
    hide Events, HasScript, RunnerOf;
  }

  lemma {:induction false} FoundByCall(env: Env, member: Package, script: string, tokens: seq<string>, depth: nat,
      e: Event) returns (ask: Ask, k: nat)
    requires tokens != [] && Manager(tokens[0]) && depth <= MAX_DEPTH && !e.Object?
    requires var prefix := ReadPrefix(env, tokens[0], [member], tokens[1..]);
      && prefix.Prefix? && !prefix.exec && CallOf(prefix.rest) != [] && !StartsWith(CallOf(prefix.rest)[0], "-")
      && e in EachTask(env, prefix.targets, script, tokens[0], CallOf(prefix.rest), depth)
    ensures e == EventOf(ask, depth + k) && Asks(env, member, script, tokens, ask, k)
    decreases |tokens|, 0
  {
    hide ReadPrefix, EachTask, TaskEvents, Events, IsCall, IsTarget, TargetsAfter, RunnerOf, StartsWith, HasScript,
      Asks;
    var prefix := ReadPrefix(env, tokens[0], [member], tokens[1..]);
    var call := CallOf(prefix.rest);
    var options, run := ReadsCall(env, member, tokens);
    EachTaskHas(env, prefix.targets, script, tokens[0], call, depth);
    var target :| target in prefix.targets && e in TaskEvents(env, target, script, tokens[0], call, depth);
    TargetsAreTargets(env, member, options);
    assert call == [call[0]] + call[1..];
    TaskFound(env, target, script, tokens[0], call, depth, e);
    if HasScript(target, call[0]) {
      assert call[1..] == [];
      AskedOutright(env, member, script, tokens, tokens[0], options, run, call[0], target);
      ask, k := Goes(Node(target, call[0])), 0;
    } else {
      ask, k := FoundIsAsked(env, target, script, call, depth + 1, e);
      AskedByCall(env, member, script, tokens, tokens[0], options, run, call[0], call[1..], target, ask, k);
      k := k + 1;
    }
  }

  lemma RunsOnly(env: Env, member: Package, script: string, tokens: seq<string>, e: Event)
    requires tokens != [] && e in RunEvents(env, member, script, tokens[0], tokens[1..])
    ensures !e.Delegate?
  {
    hide OnlyInforms, RunsNothing, RunnerOf;
  }

  /** The expansion holds the ask, at that depth; or it went too deep and says so. */
  predicate Answers(events: seq<Event>, ask: Ask, depth: nat) {
    if depth <= MAX_DEPTH then EventOf(ask, depth) in events else !Clean(events)
  }

  lemma AnswersWithin(part: seq<Event>, whole: seq<Event>, ask: Ask, depth: nat)
    requires Answers(part, ask, depth) && forall e :: e in part ==> e in whole
    ensures Answers(whole, ask, depth)
  {
  }

  /** Whatever the words ask for, the expansion finds, unless it is too deep. */
  lemma {:induction false} AskedIsFound(env: Env, member: Package, script: string, tokens: seq<string>, ask: Ask,
      k: nat, depth: nat)
    requires Asks(env, member, script, tokens, ask, k)
    ensures Answers(Events(env, member, script, tokens, depth), ask, depth + k)
    decreases |tokens|, 1
  {
    hide IsExec, IsCall, IsTurbo, IsTarget, TurboTarget, Accepted, RunnerOf, Events, HasScript;
    if depth > MAX_DEPTH { BoundIsDoubt(env, member, script, tokens, depth); return; }
    if manager, options, dashes, words, target :|
      IsExec(env, tokens, manager, options, dashes, words) && IsTarget(env, member, options, target)
      && k > 0 && |words| < |tokens| && Asks(env, target, script, words, ask, k - 1)
    {
      AskedIsFound(env, target, script, words, ask, k - 1, depth + 1);
      ExecFinds(env, member, script, tokens, manager, options, dashes, words, target, ask, k, depth);
    } else if manager, options, run, task, arguments, target :|
      IsCall(env, tokens, manager, options, run, task, arguments) && IsTarget(env, member, options, target)
      && (if HasScript(target, task) then
            arguments == [] && k == 0 && ask == Goes(Node(target, task))
          else
            manager != "npm" && RunnerOf(task).Some? && k > 0 && |[task] + arguments| < |tokens|
            && Asks(env, target, script, [task] + arguments, ask, k - 1))
    {
      if !HasScript(target, task) { AskedIsFound(env, target, script, [task] + arguments, ask, k - 1, depth + 1); }
      CallFinds(env, member, script, tokens, manager, options, run, task, arguments, target, ask, k, depth);
    } else if task, filters :|
      IsTurbo(env, member, tokens, task, filters) && k == 0 && ask.Goes? && ask.node.script == task
      && TurboTarget(env, member, task, filters, ask.node.member)
    {
      TurboFinds(env, member, script, tokens, task, filters, ask.node.member, depth);
    } else {
      RunFinds(env, member, script, tokens, ask.execution, depth);
    }
  }

  lemma BoundIsDoubt(env: Env, member: Package, script: string, tokens: seq<string>, depth: nat)
    requires depth > MAX_DEPTH
    ensures !Clean(Events(env, member, script, tokens, depth))
  {
    assert Object("Script expansion reached a resource bound.") in Events(env, member, script, tokens, depth);
  }

  lemma ExecExpands(env: Env, member: Package, script: string, tokens: seq<string>, manager: string,
      options: seq<Choice>, dashes: bool, words: seq<string>, depth: nat)
    requires IsExec(env, tokens, manager, options, dashes, words) && depth <= MAX_DEPTH
    ensures Events(env, member, script, tokens, depth) ==
      EachTarget(env, TargetsAfter(env, [member], options), script, words, depth + 1)
  {
    hide IsExec, TargetsAfter, EachTarget, ReadPrefix, EachTask, TurboEvents, RunEvents, StartsWith;
    ExecReads(env, member, tokens, manager, options, dashes, words);
  }

  lemma ExecFinds(env: Env, member: Package, script: string, tokens: seq<string>, manager: string, options: seq<Choice>,
      dashes: bool, words: seq<string>, target: Package, ask: Ask, k: nat, depth: nat)
    requires IsExec(env, tokens, manager, options, dashes, words) && IsTarget(env, member, options, target)
    requires depth <= MAX_DEPTH && k > 0 && Answers(Events(env, target, script, words, depth + 1), ask, depth + k)
    ensures Answers(Events(env, member, script, tokens, depth), ask, depth + k)
  {
    hide IsExec, IsTarget, TargetsAfter, EachTarget, Events, Answers;
    ExecExpands(env, member, script, tokens, manager, options, dashes, words, depth);
    TargetsAreTargets(env, member, options);
    var targets := TargetsAfter(env, [member], options);
    EachTargetHas(env, targets, script, words, depth + 1);
    AnswersWithin(Events(env, target, script, words, depth + 1), EachTarget(env, targets, script, words, depth + 1), ask,
      depth + k);
  }

  lemma CallFinds(env: Env, member: Package, script: string, tokens: seq<string>, manager: string, options: seq<Choice>,
      run: seq<string>, task: string, arguments: seq<string>, target: Package, ask: Ask, k: nat, depth: nat)
    requires IsCall(env, tokens, manager, options, run, task, arguments) && IsTarget(env, member, options, target)
    requires depth <= MAX_DEPTH
    requires HasScript(target, task) ==> arguments == [] && k == 0 && ask == Goes(Node(target, task))
    requires !HasScript(target, task) ==>
      manager != "npm" && RunnerOf(task).Some? && k > 0
      && Answers(Events(env, target, script, [task] + arguments, depth + 1), ask, depth + k)
    ensures Answers(Events(env, member, script, tokens, depth), ask, depth + k)
  {
    hide Events, IsCall, IsTarget, TargetsAfter, EachTask, HasScript, RunnerOf, Answers;
    CallExpands(env, member, script, tokens, manager, options, run, task, arguments, depth);
    TargetsAreTargets(env, member, options);
    TaskFinds(env, script, manager, task, arguments, target, ask, k, depth);
    var targets, call := TargetsAfter(env, [member], options), [task] + arguments;
    EachTaskHas(env, targets, script, manager, call, depth);
    AnswersWithin(TaskEvents(env, target, script, manager, call, depth), EachTask(env, targets, script, manager, call, depth),
      ask, depth + k);
  }

  lemma TurboFinds(env: Env, member: Package, script: string, tokens: seq<string>, task: string, filters: seq<Choice>,
      target: Package, depth: nat)
    requires IsTurbo(env, member, tokens, task, filters) && TurboTarget(env, member, task, filters, target)
    requires depth <= MAX_DEPTH
    ensures Answers(Events(env, member, script, tokens, depth), Goes(Node(target, task)), depth)
  {
    hide TurboTarget, TurboEvents, DeclaredTool, IsFilter;
    TurboReads(env, member, tokens, task, filters, depth);
  }

  lemma RunFinds(env: Env, member: Package, script: string, tokens: seq<string>, x: Execution, depth: nat)
    requires Accepted(env, x) && x.packagePath == PathOf(member) && x.script == script
    requires [x.executable] + x.arguments == tokens && depth <= MAX_DEPTH
    ensures Answers(Events(env, member, script, tokens, depth), Does(x), depth)
  {
    hide OnlyInforms, RunsNothing, RunEvents;
    assert tokens[0] == x.executable;
    RunIsAsked(env, member, script, tokens, x);
  }

  lemma TaskFinds(env: Env, script: string, manager: string, task: string, arguments: seq<string>, target: Package,
      ask: Ask, k: nat, depth: nat)
    requires depth <= MAX_DEPTH
    requires HasScript(target, task) ==> arguments == [] && k == 0 && ask == Goes(Node(target, task))
    requires !HasScript(target, task) ==>
      manager != "npm" && RunnerOf(task).Some? && k > 0
      && Answers(Events(env, target, script, [task] + arguments, depth + 1), ask, depth + k)
    ensures Answers(TaskEvents(env, target, script, manager, [task] + arguments, depth), ask, depth + k)
  {
    hide Events, HasScript, RunnerOf;
  }

  lemma CallExpands(env: Env, member: Package, script: string, tokens: seq<string>, manager: string,
      options: seq<Choice>, run: seq<string>, task: string, arguments: seq<string>, depth: nat)
    requires IsCall(env, tokens, manager, options, run, task, arguments) && depth <= MAX_DEPTH
    ensures Events(env, member, script, tokens, depth) ==
      EachTask(env, TargetsAfter(env, [member], options), script, manager, [task] + arguments, depth)
  {
    hide IsCall, TargetsAfter, EachTask, ReadPrefix, AllMeant, StartsWith;
    CallReads(env, member, tokens, manager, options, run, task, arguments);
  }

  // ----- the expansion has no doubt exactly when the line is understood -----

  /** One target of a call is understood. */
  ghost predicate TaskUnderstood(env: Env, manager: string, target: Package, call: seq<string>, levels: nat)
    requires call != []
  {
    if HasScript(target, call[0]) then |call| == 1
    else manager != "npm" && RunnerOf(call[0]).Some? && levels > 0 && Understood(env, target, call, levels - 1)
  }

  lemma UnderstoodByExec(env: Env, member: Package, tokens: seq<string>, manager: string, options: seq<Choice>,
      dashes: bool, words: seq<string>, levels: nat)
    requires IsExec(env, tokens, manager, options, dashes, words) && |words| < |tokens|
    requires forall target :: IsTarget(env, member, options, target) ==> levels > 0 && Understood(env, target, words,
      levels - 1)
    ensures Understood(env, member, tokens, levels)
  {
    hide IsExec, IsCall, IsTurbo, IsTarget, TurboTarget, OnlyInforms, RunnerOf, DeclaredTool, HasScript;
  }

  lemma UnderstoodByCall(env: Env, member: Package, tokens: seq<string>, manager: string, options: seq<Choice>,
      run: seq<string>, task: string, arguments: seq<string>, levels: nat)
    requires IsCall(env, tokens, manager, options, run, task, arguments) && |[task] + arguments| < |tokens|
    requires forall target :: IsTarget(env, member, options, target) ==>
      TaskUnderstood(env, manager, target, [task] + arguments, levels)
    ensures Understood(env, member, tokens, levels)
  {
    hide IsExec, IsCall, IsTurbo, IsTarget, TurboTarget, OnlyInforms, RunnerOf, DeclaredTool, HasScript;
    assert IsCall(env, tokens, manager, options, run, task, arguments);
  }

  lemma UnderstoodByTurbo(env: Env, member: Package, tokens: seq<string>, task: string, filters: seq<Choice>,
      p: Package, levels: nat)
    requires IsTurbo(env, member, tokens, task, filters) && TurboTarget(env, member, task, filters, p)
    ensures Understood(env, member, tokens, levels)
  {
    hide IsExec, IsCall, IsTurbo, IsTarget, TurboTarget, OnlyInforms, RunnerOf, DeclaredTool, HasScript;
  }

  lemma {:induction false} CleanIsUnderstood(env: Env, member: Package, script: string, tokens: seq<string>, depth: nat)
    requires depth <= MAX_DEPTH && Clean(Events(env, member, script, tokens, depth))
    ensures Understood(env, member, tokens, MAX_DEPTH - depth)
    decreases |tokens|, 1
  {
    hide ReadPrefix, TurboEvents, RunEvents, EachTarget, EachTask, Understood, StartsWith, Clean;
    var events := Events(env, member, script, tokens, depth);
    if tokens == [] || tokens[0] in ["echo", "printf", "true"] {
      QuietIsUnderstood(env, member, tokens, MAX_DEPTH - depth);
    } else if Manager(tokens[0]) {
      var prefix := ReadPrefix(env, tokens[0], [member], tokens[1..]);
      if prefix.BadSelector? { ObjectIsDoubt(BAD_SELECTOR); }
      else if prefix.exec { CleanExec(env, member, script, tokens, depth); }
      else if CallOf(prefix.rest) == [] || StartsWith(CallOf(prefix.rest)[0], "-") {
        ObjectIsDoubt("Package-manager invocation is unsupported.");
      } else { CleanCall(env, member, script, tokens, depth); }
    } else if tokens[0] == "turbo" {
      TurboSpeaks(env, member, tokens[1..], depth);
      var task, filters := ReadsTurbo(env, member, tokens, depth);
      var e := TurboEvents(env, member, tokens[1..], depth)[0];
      UnderstoodByTurbo(env, member, tokens, task, filters, e.node.member, MAX_DEPTH - depth);
    } else {
      CleanRun(env, member, script, tokens, MAX_DEPTH - depth);
    }
  }

  lemma ObjectIsDoubt(reason: string)
    ensures !Clean([Object(reason)])
  {
    assert Object(reason) in [Object(reason)];
  }

  lemma QuietIsUnderstood(env: Env, member: Package, tokens: seq<string>, levels: nat)
    requires tokens == [] || tokens[0] in ["echo", "printf", "true"]
    ensures Understood(env, member, tokens, levels)
  {
    hide IsExec, IsCall, IsTurbo, IsTarget, TurboTarget, OnlyInforms, RunnerOf, DeclaredTool, HasScript;
  }

  lemma {:induction false} TurboSpeaks(env: Env, member: Package, tokens: seq<string>, depth: nat)
    requires depth <= MAX_DEPTH
    ensures TurboEvents(env, member, tokens, depth) != []
    ensures Clean(TurboEvents(env, member, tokens, depth)) ==>
      exists e :: e in TurboEvents(env, member, tokens, depth) && !e.Object?
  {
    hide DeclaredTool, NarrowTurbo, Filter, StartsWith;
    var e := TurboEvents(env, member, tokens, depth)[0];
    assert e in TurboEvents(env, member, tokens, depth);
  }

  /** A tool is understood when it only informs, or is a declared runner or Node's own test runner. */
  lemma CleanRun(env: Env, member: Package, script: string, tokens: seq<string>, levels: nat)
    requires tokens != [] && !Manager(tokens[0]) && tokens[0] !in ["echo", "printf", "true", "turbo"]
    ensures Clean(RunEvents(env, member, script, tokens[0], tokens[1..])) <==> Understood(env, member, tokens, levels)
  {
    hide IsTarget, TurboTarget, OnlyInforms, RunnerOf, DeclaredTool, HasScript, AllMeant, RunsNothing;
    NodeIsNoRunner();
    RunIsClean(env, member, script, tokens[0], tokens[1..]);
  }

  lemma RunIsClean(env: Env, member: Package, script: string, executable: string, arguments: seq<string>)
    ensures Clean(RunEvents(env, member, script, executable, arguments)) <==>
      (|| OnlyInforms(executable, arguments) || IsNodeTest(executable, arguments)
       || (RunnerOf(executable).Some? && DeclaredTool(env, member, RunnerOf(executable).value.dependency)))
  {
    hide OnlyInforms, RunnerOf, DeclaredTool, RunsNothing;
    NodeIsNoRunner();
    var events := RunEvents(env, member, script, executable, arguments);
    if events != [] { assert events[0] in events; }
  }

  lemma {:induction false} CleanExec(env: Env, member: Package, script: string, tokens: seq<string>, depth: nat)
    requires tokens != [] && Manager(tokens[0]) && depth <= MAX_DEPTH
    requires var prefix := ReadPrefix(env, tokens[0], [member], tokens[1..]);
      prefix.Prefix? && prefix.exec && Clean(EachTarget(env, prefix.targets, script, prefix.rest, depth + 1))
    ensures Understood(env, member, tokens, MAX_DEPTH - depth)
    decreases |tokens|, 0
  {
    hide ReadPrefix, EachTarget, Events, IsExec, IsTarget, TargetsAfter, Understood;
    var prefix := ReadPrefix(env, tokens[0], [member], tokens[1..]);
    var options, dashes := ReadsExec(env, member, tokens);
    EachTargetHas(env, prefix.targets, script, prefix.rest, depth + 1);
    TargetsAreTargets(env, member, options);
    forall target | IsTarget(env, member, options, target)
      ensures depth < MAX_DEPTH && Understood(env, target, prefix.rest, MAX_DEPTH - depth - 1)
    {
      assert Clean(Events(env, target, script, prefix.rest, depth + 1));
      if depth == MAX_DEPTH { BoundIsDoubt(env, target, script, prefix.rest, depth + 1); }
      CleanIsUnderstood(env, target, script, prefix.rest, depth + 1);
    }
    UnderstoodByExec(env, member, tokens, tokens[0], options, dashes, prefix.rest, MAX_DEPTH - depth);
  }

  lemma {:induction false} CleanCall(env: Env, member: Package, script: string, tokens: seq<string>, depth: nat)
    requires tokens != [] && Manager(tokens[0]) && depth <= MAX_DEPTH
    requires var prefix := ReadPrefix(env, tokens[0], [member], tokens[1..]);
      && prefix.Prefix? && !prefix.exec && CallOf(prefix.rest) != [] && !StartsWith(CallOf(prefix.rest)[0], "-")
      && Clean(EachTask(env, prefix.targets, script, tokens[0], CallOf(prefix.rest), depth))
    ensures Understood(env, member, tokens, MAX_DEPTH - depth)
    decreases |tokens|, 0
  {
    hide ReadPrefix, EachTask, Events, TaskEvents, IsCall, IsTarget, TargetsAfter, RunnerOf, StartsWith, HasScript,
      Understood, TaskUnderstood;
    var prefix := ReadPrefix(env, tokens[0], [member], tokens[1..]);
    var call := CallOf(prefix.rest);
    var options, run := ReadsCall(env, member, tokens);
    EachTaskHas(env, prefix.targets, script, tokens[0], call, depth);
    TargetsAreTargets(env, member, options);
    assert call == [call[0]] + call[1..];
    forall target | IsTarget(env, member, options, target)
      ensures TaskUnderstood(env, tokens[0], target, call, MAX_DEPTH - depth)
    {
      assert Clean(TaskEvents(env, target, script, tokens[0], call, depth));
      CleanTask(env, target, script, tokens[0], call, depth);
    }
    UnderstoodByCall(env, member, tokens, tokens[0], options, run, call[0], call[1..], MAX_DEPTH - depth);
  }

  lemma {:induction false} CleanTask(env: Env, target: Package, script: string, manager: string, call: seq<string>,
      depth: nat)
    requires call != [] && depth <= MAX_DEPTH && Clean(TaskEvents(env, target, script, manager, call, depth))
    ensures TaskUnderstood(env, manager, target, call, MAX_DEPTH - depth)
    decreases |call|, 2
  {
    hide Events, HasScript, RunnerOf, Understood;
    var events := TaskEvents(env, target, script, manager, call, depth);
    CleanHead(events);
    if !HasScript(target, call[0]) {
      if depth == MAX_DEPTH { BoundIsDoubt(env, target, script, call, depth + 1); }
      CleanIsUnderstood(env, target, script, call, depth + 1);
    }
  }

  lemma {:induction false} UnderstoodIsClean(env: Env, member: Package, script: string, tokens: seq<string>, depth: nat)
    requires depth <= MAX_DEPTH && Understood(env, member, tokens, MAX_DEPTH - depth)
    ensures Clean(Events(env, member, script, tokens, depth))
    decreases |tokens|, 1
  {
    hide IsExec, IsCall, IsTurbo, IsTarget, TurboTarget, RunnerOf, HasScript, DeclaredTool, OnlyInforms, Events, Clean;
    var levels: nat := MAX_DEPTH - depth;
    if tokens == [] || tokens[0] in ["echo", "printf", "true"] {
      QuietIsClean(env, member, script, tokens, depth);
    } else if manager, options, dashes, words :|
      IsExec(env, tokens, manager, options, dashes, words)
      && forall target :: IsTarget(env, member, options, target) ==>
           levels > 0 && |words| < |tokens| && Understood(env, target, words, levels - 1)
    {
      forall target | IsTarget(env, member, options, target)
        ensures Clean(Events(env, target, script, words, depth + 1))
      {
        UnderstoodIsClean(env, target, script, words, depth + 1);
      }
      ExecIsClean(env, member, script, tokens, manager, options, dashes, words, depth);
    } else if manager, options, run, task, arguments :|
      IsCall(env, tokens, manager, options, run, task, arguments)
      && forall target :: IsTarget(env, member, options, target) ==>
           (if HasScript(target, task) then
              arguments == []
            else
              manager != "npm" && RunnerOf(task).Some? && levels > 0 && |[task] + arguments| < |tokens|
              && Understood(env, target, [task] + arguments, levels - 1))
    {
      forall target | IsTarget(env, member, options, target)
        ensures Clean(TaskEvents(env, target, script, manager, [task] + arguments, depth))
      {
        if !HasScript(target, task) { UnderstoodIsClean(env, target, script, [task] + arguments, depth + 1); }
        TaskIsClean(env, target, script, manager, task, arguments, depth);
      }
      CallIsClean(env, member, script, tokens, manager, options, run, task, arguments, depth);
    } else if task, filters, p :|
      IsTurbo(env, member, tokens, task, filters) && TurboTarget(env, member, task, filters, p)
    {
      TurboIsClean(env, member, script, tokens, task, filters, p, depth);
    } else {
      ToolIsClean(env, member, script, tokens, depth);
    }
  }

  lemma QuietIsClean(env: Env, member: Package, script: string, tokens: seq<string>, depth: nat)
    requires depth <= MAX_DEPTH && (tokens == [] || tokens[0] in ["echo", "printf", "true"])
    ensures Clean(Events(env, member, script, tokens, depth))
  {
  }

  lemma {:induction false} ExecIsClean(env: Env, member: Package, script: string, tokens: seq<string>, manager: string,
      options: seq<Choice>, dashes: bool, words: seq<string>, depth: nat)
    requires IsExec(env, tokens, manager, options, dashes, words) && depth <= MAX_DEPTH
    requires forall target :: IsTarget(env, member, options, target) ==>
      Clean(Events(env, target, script, words, depth + 1))
    ensures Clean(Events(env, member, script, tokens, depth))
  {
    hide IsExec, IsTarget, TargetsAfter, EachTarget, Events;
    ExecExpands(env, member, script, tokens, manager, options, dashes, words, depth);
    TargetsAreTargets(env, member, options);
    EachTargetHas(env, TargetsAfter(env, [member], options), script, words, depth + 1);
  }

  lemma {:induction false} CallIsClean(env: Env, member: Package, script: string, tokens: seq<string>, manager: string,
      options: seq<Choice>, run: seq<string>, task: string, arguments: seq<string>, depth: nat)
    requires IsCall(env, tokens, manager, options, run, task, arguments) && depth <= MAX_DEPTH
    requires forall target :: IsTarget(env, member, options, target) ==>
      Clean(TaskEvents(env, target, script, manager, [task] + arguments, depth))
    ensures Clean(Events(env, member, script, tokens, depth))
  {
    hide IsCall, IsTarget, TargetsAfter, EachTask, TaskEvents, Events;
    CallExpands(env, member, script, tokens, manager, options, run, task, arguments, depth);
    TargetsAreTargets(env, member, options);
    EachTaskHas(env, TargetsAfter(env, [member], options), script, manager, [task] + arguments, depth);
  }

  lemma TaskIsClean(env: Env, target: Package, script: string, manager: string, task: string, arguments: seq<string>,
      depth: nat)
    requires depth <= MAX_DEPTH
    requires HasScript(target, task) ==> arguments == []
    requires !HasScript(target, task) ==>
      manager != "npm" && RunnerOf(task).Some? && Clean(Events(env, target, script, [task] + arguments, depth + 1))
    ensures Clean(TaskEvents(env, target, script, manager, [task] + arguments, depth))
  {
    hide Events, HasScript, RunnerOf;
  }

  lemma TurboIsClean(env: Env, member: Package, script: string, tokens: seq<string>, task: string, filters: seq<Choice>,
      p: Package, depth: nat)
    requires IsTurbo(env, member, tokens, task, filters) && TurboTarget(env, member, task, filters, p)
    requires depth <= MAX_DEPTH
    ensures Clean(Events(env, member, script, tokens, depth))
  {
    hide TurboTarget, TurboEvents, DeclaredTool, IsFilter;
    TurboReads(env, member, tokens, task, filters, depth);
  }

  lemma ToolIsClean(env: Env, member: Package, script: string, tokens: seq<string>, depth: nat)
    requires depth <= MAX_DEPTH && tokens != [] && !Manager(tokens[0]) && tokens[0] != "turbo"
    requires
      || OnlyInforms(tokens[0], tokens[1..]) || IsNodeTest(tokens[0], tokens[1..])
      || (RunnerOf(tokens[0]).Some? && DeclaredTool(env, member, RunnerOf(tokens[0]).value.dependency))
    ensures Clean(Events(env, member, script, tokens, depth))
  {
    hide RunnerOf, DeclaredTool, OnlyInforms, RunEvents;
    RunIsClean(env, member, script, tokens[0], tokens[1..]);
  }

  ghost predicate AskedFor(env: Env, member: Package, script: string, tokens: seq<string>, depth: nat, e: Event) {
    exists ask, k: nat :: Asks(env, member, script, tokens, ask, k) && e == EventOf(ask, depth + k)
  }

  /** What one command line asks for, whatever its words: the expansion finds exactly what `Asks`
      says, with nothing in doubt exactly when the line is `Understood`. */
  lemma {:induction false} CommandsMeanWhatTheySay(env: Env, member: Package, script: string, tokens: seq<string>,
      depth: nat)
    requires depth <= MAX_DEPTH
    ensures Clean(Events(env, member, script, tokens, depth)) <==> Understood(env, member, tokens, MAX_DEPTH - depth)
    ensures forall ask, k: nat :: Asks(env, member, script, tokens, ask, k) ==>
      Answers(Events(env, member, script, tokens, depth), ask, depth + k)
    ensures forall e :: e in Events(env, member, script, tokens, depth) && !e.Object? ==>
      AskedFor(env, member, script, tokens, depth, e)
  {
    hide Events, Understood, Asks, Clean, Answers;
    if Clean(Events(env, member, script, tokens, depth)) { CleanIsUnderstood(env, member, script, tokens, depth); }
    if Understood(env, member, tokens, MAX_DEPTH - depth) { UnderstoodIsClean(env, member, script, tokens, depth); }
    forall ask, k: nat | Asks(env, member, script, tokens, ask, k)
      ensures Answers(Events(env, member, script, tokens, depth), ask, depth + k)
    {
      AskedIsFound(env, member, script, tokens, ask, k, depth);
    }
    forall e | e in Events(env, member, script, tokens, depth) && !e.Object?
      ensures AskedFor(env, member, script, tokens, depth, e)
    {
      var ask, k := FoundIsAsked(env, member, script, tokens, depth, e);
      assert Asks(env, member, script, tokens, ask, k);
    }
  }
}
