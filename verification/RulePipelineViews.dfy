/** What the stages of the pipeline show their rules and make of what they answer, told of the result:
    each stage sees exactly what the result holds of the stages before. */
module RulePipelineViews {
  import opened Text
  import opened ReportContract
  import opened RulePipelineModel
  import opened RulePipelineSafety

  /** Limitations and partial failures so far. */
  datatype Log = Log(limitations: seq<Limitation>, failures: seq<Failure>)

  predicate AddsOutput(before: Log, after: Log, limitations: seq<Limitation>) {
    after == Log(before.limitations + limitations, before.failures)
  }

  /** One limitation and one partial failure stand for what failed. */
  predicate AddsFailure(before: Log, after: Log, def: RuleDef, code: string, categories: seq<Category>) {
    && |after.limitations| == |before.limitations| + 1 && before.limitations <= after.limitations
    && |after.failures| == |before.failures| + 1 && before.failures <= after.failures
    && var l, f := after.limitations[|before.limitations|], after.failures[|before.failures|];
    && l.partialFailure && l.ruleIds == [def.id] && l.sourceIds == [] && l.categories == categories
    && f.scope == OfRule(RuleRef(def.id, def.version)) && f.code == code
  }

  // ----- what the pipeline accepts -----

  predicate Fresh(taken: seq<string>, ids: seq<string>) {
    && (forall i, j :: 0 <= i < j < |ids| ==> ids[i] != ids[j])
    && (forall id :: id in ids ==> id !in taken)
  }

  predicate ByTheRule(def: RuleDef, rule: RuleRef, requirementIds: seq<string>) {
    rule.id == def.id && rule.version == def.version && forall r :: r in requirementIds ==> r in def.requirementIds
  }

  predicate LimitationsFit(def: RuleDef, before: Log, limitations: seq<Limitation>) {
    && (forall l :: l in limitations ==> def.id in l.ruleIds)
    && Fresh(LimitationIds(before.limitations), LimitationIds(limitations))
  }

  predicate FactsFit(c: Context, def: RuleDef, facts: seq<Fact>, before: Log, emitted: seq<Fact>,
      limitations: seq<Limitation>)
  {
    && LimitationsFit(def, before, limitations) && Fresh(FactIds(facts), FactIds(emitted))
    && forall f :: f in emitted ==>
         ByTheRule(def, f.rule, f.requirementIds) && forall id :: id in f.evidenceIds ==> id in EvidenceIds(c.evidence)
  }

  predicate CandidateFits(c: Context, view: View, def: RuleDef, visible: seq<Limitation>, x: Candidate) {
    && ByTheRule(def, x.rule, x.requirementIds)
    && (forall id :: id in x.evidenceIds ==> id in EvidenceIds(c.evidence))
    && (forall id :: id in x.factIds ==> id in FactIds(view.facts))
    && (forall id :: id in x.limitationIds ==> id in LimitationIds(visible))
    && (x.confidence.Some? ==> forall id :: id in x.confidence.value ==> id in x.factIds)
  }

  predicate CandidatesFit(c: Context, view: View, def: RuleDef, candidates: seq<Candidate>, before: Log,
      emitted: seq<Candidate>, limitations: seq<Limitation>)
  {
    && LimitationsFit(def, before, limitations) && Fresh(CandidateIds(candidates), CandidateIds(emitted))
    && forall x :: x in emitted ==> CandidateFits(c, view, def, before.limitations + limitations, x)
  }

  /** Some finding that the recommendation cites is heuristic. */
  predicate CitesHeuristic(findings: seq<Finding>, r: Recommendation) {
    exists f :: f in findings && f.base.id in r.findingIds && f.base.confidence.Some?
  }

  predicate RecommendationFits(c: Context, view: View, def: RuleDef, r: Recommendation) {
    && ByTheRule(def, r.rule, r.requirementIds)
    && (forall id :: id in r.evidenceIds ==> id in EvidenceIds(c.evidence))
    && (forall id :: id in r.findingIds ==> id in FindingIds(view.findings))
    && (r.confidence.Some? <==> CitesHeuristic(view.findings, r))
    && (r.confidence.Some? ==> forall id :: id in r.confidence.value ==> id in FactIds(view.facts))
  }

  predicate RecommendationsFit(c: Context, view: View, def: RuleDef, items: seq<Recommendation>, before: Log,
      emitted: seq<Recommendation>, limitations: seq<Limitation>)
  {
    && LimitationsFit(def, before, limitations) && Fresh(RecommendationIds(items), RecommendationIds(emitted))
    && forall r :: r in emitted ==> RecommendationFits(c, view, def, r)
  }

  // ----- what a stage makes of its rules' answers, in order -----

  function Code(invariantError: bool): string {
    if invariantError then "rule_output_invalid" else "rule_evaluation_failed"
  }

  predicate AfterFactRule(c: Context, view: View, rule: FactRule, facts: seq<Fact>, log: Log, facts': seq<Fact>,
      log': Log)
  {
    match rule.evaluate(view)
    case FactsThrew(e) => facts' == facts && AddsFailure(log, log', rule.def, Code(e), [])
    case FactsEmitted(emitted, limitations) =>
      if FactsFit(c, rule.def, facts, log, emitted, limitations)
      then facts' == facts + emitted && AddsOutput(log, log', limitations)
      else facts' == facts && AddsFailure(log, log', rule.def, Code(true), [])
  }

  ghost predicate FactRun(c: Context, view: View, rules: seq<FactRule>, facts: seq<Fact>, log: Log, end: seq<Fact>,
      endLog: Log)
    decreases |rules|
  {
    if rules == [] then end == facts && endLog == log
    else exists facts', log' ::
      AfterFactRule(c, view, rules[0], facts, log, facts', log') && FactRun(c, view, rules[1..], facts', log', end,
        endLog)
  }

  predicate AfterFindingRule(c: Context, view: View, rule: FindingRule, items: seq<Candidate>, log: Log,
      items': seq<Candidate>, log': Log)
  {
    match rule.evaluate(view)
    case FindingsThrew(e) => items' == items && AddsFailure(log, log', rule.def, Code(e), [])
    case FindingsEmitted(emitted, limitations) =>
      if CandidatesFit(c, view, rule.def, items, log, emitted, limitations)
      then items' == items + emitted && AddsOutput(log, log', limitations)
      else items' == items && AddsFailure(log, log', rule.def, Code(true), [])
  }

  ghost predicate FindingRun(c: Context, view: View, rules: seq<FindingRule>, items: seq<Candidate>, log: Log,
      end: seq<Candidate>, endLog: Log)
    decreases |rules|
  {
    if rules == [] then end == items && endLog == log
    else exists items', log' ::
      AfterFindingRule(c, view, rules[0], items, log, items', log') && FindingRun(c, view, rules[1..], items', log',
        end, endLog)
  }

  predicate AfterPriority(view: View, p: Prioritizer, x: Candidate, findings: seq<Finding>, log: Log,
      findings': seq<Finding>, log': Log)
  {
    match p.prioritize(view, x)
    case PriorityThrew(e) =>
      && findings' == findings
      && AddsFailure(log, log', p.def, if e then "priority_output_invalid" else "priority_evaluation_failed",
        [x.category])
    case Prioritized(priority) =>
      if priority.rule == RuleRef(p.def.id, p.def.version) && x.id !in FindingIds(findings)
      then findings' == findings + [Finding(x, priority)] && log' == log
      else findings' == findings && AddsFailure(log, log', p.def, "priority_output_invalid", [x.category])
  }

  ghost predicate PriorityRun(view: View, p: Prioritizer, candidates: seq<Candidate>, findings: seq<Finding>, log: Log,
      end: seq<Finding>, endLog: Log)
    decreases |candidates|
  {
    if candidates == [] then end == findings && endLog == log
    else exists findings', log' ::
      AfterPriority(view, p, candidates[0], findings, log, findings', log')
      && PriorityRun(view, p, candidates[1..], findings', log', end, endLog)
  }

  predicate AfterRecommendationRule(c: Context, view: View, rule: RecommendationRule, items: seq<Recommendation>,
      log: Log, items': seq<Recommendation>, log': Log)
  {
    match rule.evaluate(view)
    case RecommendationsThrew(e) => items' == items && AddsFailure(log, log', rule.def, Code(e), [])
    case RecommendationsEmitted(emitted, limitations) =>
      if RecommendationsFit(c, view, rule.def, items, log, emitted, limitations)
      then items' == items + emitted && AddsOutput(log, log', limitations)
      else items' == items && AddsFailure(log, log', rule.def, Code(true), [])
  }

  ghost predicate RecommendationRun(c: Context, view: View, rules: seq<RecommendationRule>, items: seq<Recommendation>,
      log: Log, end: seq<Recommendation>, endLog: Log)
    decreases |rules|
  {
    if rules == [] then end == items && endLog == log
    else exists items', log' ::
      AfterRecommendationRule(c, view, rules[0], items, log, items', log')
      && RecommendationRun(c, view, rules[1..], items', log', end, endLog)
  }

  // ----- the whole result -----

  /** The rules of a stage, every one once, in the order of their ids. */
  ghost predicate RunsAll<R(!new)>(id: R -> string, rules: seq<R>, sorted: seq<R>) {
    multiset(sorted) == multiset(rules) && InOrder(id, sorted)
  }

  /** The four stages ran one after the other, each on a view that holds exactly the result's entities of
      the earlier ones, and the limitations and failures recorded until then. */
  ghost predicate RanInStages(c: Context, rules: RuleSet, r: Store, facts: seq<FactRule>, findings: seq<FindingRule>,
      recommendations: seq<RecommendationRule>, log1: Log, log2: Log, log3: Log)
  {
    && RunsAll((x: FactRule) => x.def.id, rules.factRules, facts)
    && RunsAll((x: FindingRule) => x.def.id, rules.findingRules, findings)
    && RunsAll((x: RecommendationRule) => x.def.id, rules.recommendationRules, recommendations)
    && FactRun(c, View(c.limitations, c.failures, [], [], []), facts, [], Log(c.limitations, c.failures), r.facts, log1)
    && FindingRun(c, View(log1.limitations, log1.failures, r.facts, [], []), findings, [], log1, r.candidates, log2)
    && PriorityRun(View(log2.limitations, log2.failures, r.facts, r.candidates, []), rules.prioritizer, r.candidates, [], log2,
         r.findings, log3)
    && RecommendationRun(c, View(log3.limitations, log3.failures, r.facts, [], r.findings), recommendations, [], log3,
         r.recommendations, Log(r.limitations, r.failures))
  }

  // ----- proof -----

  function LogOf(s: Store): Log {
    Log(s.limitations, s.failures)
  }

  lemma FailedAddsFailure(s: Store, def: RuleDef, invariantError: bool, finding: Option<Candidate>)
    ensures AddsFailure(LogOf(s), LogOf(Failed(s, def, invariantError, finding)), def, FailureCode(finding.Some?, invariantError),
      if finding == None then [] else [finding.value.category])
  {
    hide Allocate;
  }

  lemma {:induction false} FactStageRuns(c: Context, view: View, s: Store, rules: seq<FactRule>)
    ensures var r := FactStage(c, view, s, rules);
      && FactRun(c, view, rules, s.facts, LogOf(s), r.facts, LogOf(r))
      && r == s.(facts := r.facts, limitations := r.limitations, failures := r.failures)
    decreases |rules|
  {
    if rules == [] { return; }
    var s' := FactStep(c, view, s, rules[0]);
    FactStageRuns(c, view, s', rules[1..]);
    hide FactRun, FactStage, Failed, AddsFailure;
    var o := rules[0].evaluate(view);
    if o.FactsThrew? { FailedAddsFailure(s, rules[0].def, o.invariantError, None); }
    else {
      FailedAddsFailure(s, rules[0].def, true, None);
      assert FactsFit(c, rules[0].def, s.facts, LogOf(s), o.facts, o.limitations)
        <==> FactsAccepted(c, s, rules[0].def, o.facts, o.limitations);
    }
    assert AfterFactRule(c, view, rules[0], s.facts, LogOf(s), s'.facts, LogOf(s'));
    FactRunStep(c, view, rules, s.facts, LogOf(s), s'.facts, LogOf(s'), FactStage(c, view, s', rules[1..]).facts,
      LogOf(FactStage(c, view, s', rules[1..])));
    FactStageStep(c, view, s, rules);
    FailedKeepsEntities(s, rules[0].def, true, None);
    if o.FactsThrew? { FailedKeepsEntities(s, rules[0].def, o.invariantError, None); }
  }

  lemma FactRunStep(c: Context, view: View, rules: seq<FactRule>, facts: seq<Fact>, log: Log, facts': seq<Fact>,
      log': Log, end: seq<Fact>, endLog: Log)
    requires rules != [] && AfterFactRule(c, view, rules[0], facts, log, facts', log')
    requires FactRun(c, view, rules[1..], facts', log', end, endLog)
    ensures FactRun(c, view, rules, facts, log, end, endLog)
  {
    hide AfterFactRule;
  }

  lemma FactStageStep(c: Context, view: View, s: Store, rules: seq<FactRule>)
    requires rules != []
    ensures FactStage(c, view, s, rules) == FactStage(c, view, FactStep(c, view, s, rules[0]), rules[1..])
  {
  }

  lemma FailedKeepsEntities(s: Store, def: RuleDef, invariantError: bool, finding: Option<Candidate>)
    ensures var s' := Failed(s, def, invariantError, finding);
      s' == s.(limitations := s'.limitations, failures := s'.failures)
  {
    hide Allocate;
  }

  lemma {:induction false} FindingStageRuns(c: Context, view: View, s: Store, rules: seq<FindingRule>)
    requires view.facts == s.facts
    ensures var r := FindingStage(c, view, s, rules);
      && FindingRun(c, view, rules, s.candidates, LogOf(s), r.candidates, LogOf(r))
      && r == s.(candidates := r.candidates, limitations := r.limitations, failures := r.failures)
    decreases |rules|
  {
    if rules == [] { return; }
    var s' := FindingStep(c, view, s, rules[0]);
    FailedKeepsEntities(s, rules[0].def, true, None);
    var o := rules[0].evaluate(view);
    hide FindingRun, FindingStage, Failed, AddsFailure;
    if o.FindingsThrew? {
      FailedAddsFailure(s, rules[0].def, o.invariantError, None);
      FailedKeepsEntities(s, rules[0].def, o.invariantError, None);
    } else {
      FailedAddsFailure(s, rules[0].def, true, None);
      FindingsFitExactly(c, view, s, rules[0].def, o.findings, o.limitations);
      hide CandidatesFit, FindingsAccepted;
    }
    FindingStageRuns(c, view, s', rules[1..]);
    assert AfterFindingRule(c, view, rules[0], s.candidates, LogOf(s), s'.candidates, LogOf(s'));
    var r := FindingStage(c, view, s', rules[1..]);
    FindingRunStep(c, view, rules, s.candidates, LogOf(s), s'.candidates, LogOf(s'), r.candidates, LogOf(r));
    FindingStageStep(c, view, s, rules);
  }

  lemma FindingsFitExactly(c: Context, view: View, s: Store, def: RuleDef, emitted: seq<Candidate>,
      limitations: seq<Limitation>)
    requires view.facts == s.facts
    ensures CandidatesFit(c, view, def, s.candidates, LogOf(s), emitted, limitations)
      <==> FindingsAccepted(c, s, def, emitted, limitations)
  {
    IdsAppend(s.limitations, limitations, (l: Limitation) => l.id);
    forall x | x in emitted
      ensures CandidateFits(c, view, def, s.limitations + limitations, x) <==>
        FindingAccepted(c, s, def, limitations, x)
    {
    }
    hide CandidateFits, FindingAccepted;
  }

  lemma FindingRunStep(c: Context, view: View, rules: seq<FindingRule>, items: seq<Candidate>, log: Log,
      items': seq<Candidate>, log': Log, end: seq<Candidate>, endLog: Log)
    requires rules != [] && AfterFindingRule(c, view, rules[0], items, log, items', log')
    requires FindingRun(c, view, rules[1..], items', log', end, endLog)
    ensures FindingRun(c, view, rules, items, log, end, endLog)
  {
    hide AfterFindingRule;
  }

  lemma FindingStageStep(c: Context, view: View, s: Store, rules: seq<FindingRule>)
    requires rules != []
    ensures FindingStage(c, view, s, rules) == FindingStage(c, view, FindingStep(c, view, s, rules[0]), rules[1..])
  {
  }

  lemma {:induction false} PriorityStageRuns(view: View, s: Store, p: Prioritizer, candidates: seq<Candidate>)
    requires Distinct(FindingIds(s.findings))
    ensures var r := PriorityStage(view, s, p, candidates);
      && PriorityRun(view, p, candidates, s.findings, LogOf(s), r.findings, LogOf(r))
      && r == s.(findings := r.findings, limitations := r.limitations, failures := r.failures)
      && Distinct(FindingIds(r.findings))
    decreases |candidates|
  {
    if candidates == [] { return; }
    var x := candidates[0];
    var s' := PriorityStep(view, s, p, x);
    var o := p.prioritize(view, x);
    var e := if o.PriorityThrew? then o.invariantError else true;
    FailedKeepsEntities(s, p.def, e, Some(x));
    FailedAddsFailure(s, p.def, e, Some(x));
    if o.Prioritized? { OneMoreFinding(s.findings, Finding(x, o.priority)); }
    hide PriorityRun, PriorityStage, Failed, AddsFailure, Distinct;
    PriorityStageRuns(view, s', p, candidates[1..]);
    assert AfterPriority(view, p, x, s.findings, LogOf(s), s'.findings, LogOf(s'));
    var r := PriorityStage(view, s', p, candidates[1..]);
    PriorityRunStep(view, p, candidates, s.findings, LogOf(s), s'.findings, LogOf(s'), r.findings, LogOf(r));
    PriorityStageStep(view, s, p, candidates);
  }

  lemma OneMoreFinding(findings: seq<Finding>, f: Finding)
    requires Distinct(FindingIds(findings))
    ensures f.base.id !in FindingIds(findings) ==> Distinct(FindingIds(findings + [f]))
  {
    var ids := FindingIds(findings + [f]);
    assert forall i :: 0 <= i < |findings| ==> ids[i] == FindingIds(findings)[i];
  }

  lemma PriorityRunStep(view: View, p: Prioritizer, candidates: seq<Candidate>, findings: seq<Finding>, log: Log,
      findings': seq<Finding>, log': Log, end: seq<Finding>, endLog: Log)
    requires candidates != [] && AfterPriority(view, p, candidates[0], findings, log, findings', log')
    requires PriorityRun(view, p, candidates[1..], findings', log', end, endLog)
    ensures PriorityRun(view, p, candidates, findings, log, end, endLog)
  {
    hide AfterPriority;
  }

  lemma PriorityStageStep(view: View, s: Store, p: Prioritizer, candidates: seq<Candidate>)
    requires candidates != []
    ensures PriorityStage(view, s, p, candidates) == PriorityStage(view, PriorityStep(view, s, p, candidates[0]), p,
      candidates[1..])
  {
  }

  lemma {:induction false} RecommendationStageRuns(c: Context, view: View, s: Store, rules: seq<RecommendationRule>)
    requires view.facts == s.facts && view.findings == s.findings && Distinct(FindingIds(s.findings))
    ensures var r := RecommendationStage(c, view, s, rules);
      && RecommendationRun(c, view, rules, s.recommendations, LogOf(s), r.recommendations, LogOf(r))
      && r == s.(recommendations := r.recommendations, limitations := r.limitations, failures := r.failures)
    decreases |rules|
  {
    if rules == [] { return; }
    var s' := RecommendationStep(c, view, s, rules[0]);
    FailedKeepsEntities(s, rules[0].def, true, None);
    var o := rules[0].evaluate(view);
    hide RecommendationRun, RecommendationStage, Failed, AddsFailure, Distinct;
    if o.RecommendationsThrew? {
      FailedAddsFailure(s, rules[0].def, o.invariantError, None);
      FailedKeepsEntities(s, rules[0].def, o.invariantError, None);
    } else {
      FailedAddsFailure(s, rules[0].def, true, None);
      RecommendationsFitExactly(c, view, s, rules[0].def, o.recommendations, o.limitations);
      hide RecommendationsFit, RecommendationsAccepted;
    }
    RecommendationStageRuns(c, view, s', rules[1..]);
    assert AfterRecommendationRule(c, view, rules[0], s.recommendations, LogOf(s), s'.recommendations, LogOf(s'));
    var r := RecommendationStage(c, view, s', rules[1..]);
    RecommendationRunStep(c, view, rules, s.recommendations, LogOf(s), s'.recommendations, LogOf(s'),
      r.recommendations, LogOf(r));
    RecommendationStageStep(c, view, s, rules);
  }

  /** With distinct ids the finding of an id is the one that carries it. */
  lemma HeuristicIsUnique(findings: seq<Finding>, f: Finding)
    requires Distinct(FindingIds(findings)) && f in findings
    ensures Heuristic(findings, f.base.id) <==> f.base.confidence.Some?
  {
    var i :| 0 <= i < |findings| && findings[i] == f;
    assert FindingIds(findings)[i] == f.base.id;
    var g := FindFinding(findings, f.base.id).value;
    var j :| 0 <= j < |findings| && findings[j] == g;
    assert FindingIds(findings)[j] == f.base.id;
  }

  lemma CitesHeuristicExactly(findings: seq<Finding>, r: Recommendation)
    requires Distinct(FindingIds(findings))
    ensures CitesHeuristic(findings, r) <==> exists id :: id in r.findingIds && Heuristic(findings, id)
  {
    hide FindFinding, Distinct;
    if CitesHeuristic(findings, r) {
      var f :| f in findings && f.base.id in r.findingIds && f.base.confidence.Some?;
      HeuristicIsUnique(findings, f);
      assert f.base.id in r.findingIds && Heuristic(findings, f.base.id);
    }
  }

  lemma RecommendationsFitExactly(c: Context, view: View, s: Store, def: RuleDef, emitted: seq<Recommendation>,
      limitations: seq<Limitation>)
    requires view.facts == s.facts && view.findings == s.findings && Distinct(FindingIds(s.findings))
    ensures RecommendationsFit(c, view, def, s.recommendations, LogOf(s), emitted, limitations)
      <==> RecommendationsAccepted(c, s, def, emitted, limitations)
  {
    forall r | r in emitted
      ensures RecommendationFits(c, view, def, r) <==> RecommendationAccepted(c, s, def, r)
    {
      CitesHeuristicExactly(s.findings, r);
      hide Heuristic, CitesHeuristic;
    }
    hide RecommendationFits, RecommendationAccepted;
  }

  lemma RecommendationRunStep(c: Context, view: View, rules: seq<RecommendationRule>, items: seq<Recommendation>,
      log: Log, items': seq<Recommendation>, log': Log, end: seq<Recommendation>, endLog: Log)
    requires rules != [] && AfterRecommendationRule(c, view, rules[0], items, log, items', log')
    requires RecommendationRun(c, view, rules[1..], items', log', end, endLog)
    ensures RecommendationRun(c, view, rules, items, log, end, endLog)
  {
    hide AfterRecommendationRule;
  }

  lemma RecommendationStageStep(c: Context, view: View, s: Store, rules: seq<RecommendationRule>)
    requires rules != []
    ensures RecommendationStage(c, view, s, rules)
      == RecommendationStage(c, view, RecommendationStep(c, view, s, rules[0]), rules[1..])
  {
  }

  lemma SortRunsAll<R(!new)>(id: R -> string, rules: seq<R>)
    ensures RunsAll(id, rules, Sort(ByKey(id), rules))
  {
    SortInOrder(id, rules);
  }

  ghost predicate RanInOrder(c: Context, rules: RuleSet, r: Store) {
    exists facts, findings, recommendations, log1, log2, log3 ::
      RanInStages(c, rules, r, facts, findings, recommendations, log1, log2, log3)
  }

  /** Whatever the rules do: the result is what the four stages make of their answers, every stage asking
      all its rules in the order of their ids, on the entities that the result holds. */
  lemma {:induction false} PipelineRunsInOrder(c: Context, rules: RuleSet)
    requires RuleSetOk(rules)
    ensures RanInOrder(c, rules, Pipeline(c, rules).value)
  {
    hide FactStage, FindingStage, PriorityStage, RecommendationStage, FactRun, FindingRun, PriorityRun,
      RecommendationRun,
      RunsAll, RuleSetOk;
    var s0, s1, s2, s3 := StartOf(c), AfterFacts(c, rules), AfterFindings(c, rules), AfterPriorities(c, rules);
    var s4 := AfterRecommendations(c, rules);
    SortRunsAll((x: FactRule) => x.def.id, rules.factRules);
    SortRunsAll((x: FindingRule) => x.def.id, rules.findingRules);
    SortRunsAll((x: RecommendationRule) => x.def.id, rules.recommendationRules);
    FactStageRuns(c, ViewOf(s0), s0, SortedFactRules(rules.factRules));
    FindingStageRuns(c, ViewOf(s1), s1, SortedFindingRules(rules.findingRules));
    assert s2.findings == [] && Distinct(FindingIds([]));
    PriorityStageRuns(ViewOf(s2), s2, rules.prioritizer, s2.candidates);
    RecommendationStageRuns(c, LastView(s3), s3, SortedRecommendationRules(rules.recommendationRules));
    assert RanInStages(c, rules, s4, SortedFactRules(rules.factRules), SortedFindingRules(rules.findingRules),
      SortedRecommendationRules(rules.recommendationRules), LogOf(s1), LogOf(s2), LogOf(s3));
  }
}
