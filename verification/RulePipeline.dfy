/** `runRulePipeline` in the source's own form: lists that are pushed to, id sets kept beside them,
    loops over sorted rules, and an allocator that marks what it hands out. Proved against
    `RulePipelineModel`. */
module RulePipeline {
  import opened Text
  import opened ReportContract
  import opened RulePipelineModel
  import opened RulePipelineSafety
  import opened RulePipelineViews

  /** `allocateIdentifier`: tries the preferred id, then numbered ones, until one is free. */
  method AllocateIdentifier(preferred: string, used: set<string>) returns (id: string, used': set<string>)
    ensures id == Allocate(preferred, used) && id !in used && used' == used + {id}
  {
    id := SliceTo(preferred, 200);
    if id in used {
      var counter := 2;
      assert NumberedIds(preferred, 2) == {};
      ghost var goal := FirstFree(preferred, used, 2);
      id := Numbered(preferred, counter);
      while id in used
        invariant counter >= 2 && id == Numbered(preferred, counter)
        invariant NumberedIds(preferred, counter) <= used && FirstFree(preferred, used, counter) == goal
        decreases |used| + 2 - counter
      {
        OneMoreTaken(preferred, used, counter);
        counter := counter + 1;
        id := Numbered(preferred, counter);
      }
    }
    used' := used + {id};
  }

  /** `assertNoDuplicateIds`, as a verdict. */
  method NoDuplicateIds(existing: set<string>, used: seq<string>, ids: seq<string>) returns (ok: bool)
    requires existing == AsSet(used)
    ensures ok <==> NewIds(used, ids)
  {
    var localIds: set<string> := {};
    for i := 0 to |ids|
      invariant localIds == set k | 0 <= k < i :: ids[k]
      invariant NewIds(used, ids[..i])
    {
      if ids[i] in existing || ids[i] in localIds {
        if ids[i] in localIds {
          var k :| 0 <= k < i && ids[k] == ids[i];
        }
        return false;
      }
      localIds := localIds + {ids[i]};
      assert ids[..i + 1] == ids[..i] + [ids[i]];
    }
    assert ids[..|ids|] == ids;
    ok := true;
  }

  class Run {
    const context: Context
    var facts: seq<Fact>
    var candidates: seq<Candidate>
    var findings: seq<Finding>
    var recommendations: seq<Recommendation>
    var limitations: seq<Limitation>
    var failures: seq<Failure>
    var factIds: set<string>
    var candidateIds: set<string>
    var findingIds: set<string>
    var recommendationIds: set<string>
    var limitationIds: set<string>
    var failureIds: set<string>

    function State(): Store
      reads this
    {
      Store(facts, candidates, findings, recommendations, limitations, failures)
    }

    /** The id sets are the ids of the lists. */
    ghost predicate Valid()
      reads this
    {
      && factIds == AsSet(FactIds(facts)) && candidateIds == AsSet(CandidateIds(candidates))
      && findingIds == AsSet(FindingIds(findings)) && recommendationIds == AsSet(RecommendationIds(recommendations))
      && limitationIds == AsSet(LimitationIds(limitations)) && failureIds == AsSet(FailureIds(failures))
    }

    constructor (context: Context)
      ensures Valid() && State() == StartOf(context) && this.context == context
    {
      this.context := context;
      facts, candidates, findings, recommendations := [], [], [], [];
      limitations, failures := context.limitations, context.failures;
      factIds, candidateIds, findingIds, recommendationIds := {}, {}, {}, {};
      limitationIds, failureIds := AsSet(LimitationIds(context.limitations)), AsSet(FailureIds(context.failures));
    }

    /** `createFailureArtifacts`, and the two pushes after it. */
    method Fail(def: RuleDef, invariantError: bool, finding: Option<Candidate>)
      requires Valid()
      modifies this
      ensures Valid() && State() == Failed(old(State()), def, invariantError, finding)
    {
      hide Allocate;
      var code := FailureCode(finding.Some?, invariantError);
      var name := code + ":" + def.id + Subject(finding);
      var limitationId, failureId;
      limitationId, limitationIds := AllocateIdentifier("limitation:" + name, limitationIds);
      failureId, failureIds := AllocateIdentifier("partial-failure:" + name, failureIds);
      var l := Limitation(limitationId, true, if finding == None then [] else [finding.value.category], [], [def.id]);
      var f := Failure(failureId, OfRule(RuleRef(def.id, def.version)), code);
      IdsAppend(limitations, [l], (x: Limitation) => x.id);
      IdsAppend(failures, [f], (x: Failure) => x.id);
      assert LimitationIds([l]) == [limitationId] && FailureIds([f]) == [failureId];
      limitations := limitations + [l];
      failures := failures + [f];
    }

    method PushLimitations(added: seq<Limitation>)
      requires Valid()
      modifies this`limitations, this`limitationIds
      ensures Valid() && State() == old(State()).(limitations := old(limitations) + added)
    {
      IdsAppend(limitations, added, (x: Limitation) => x.id);
      limitations := limitations + added;
      limitationIds := limitationIds + AsSet(LimitationIds(added));
    }

    /** One rule of the first stage: evaluate, validate, then push everything or record a failure. */
    method RunFactRule(view: View, rule: FactRule)
      requires Valid()
      modifies this
      ensures Valid() && State() == FactStep(context, view, old(State()), rule)
    {
      hide Failed, Owned, Known, Distinct;
      var result := rule.evaluate(view);
      if result.FactsThrew? { Fail(rule.def, result.invariantError, None); return; }
      var newFacts := NoDuplicateIds(factIds, FactIds(facts), FactIds(result.facts));
      var newLimitations := NoDuplicateIds(limitationIds, LimitationIds(limitations),
        LimitationIds(result.limitations));
      var valid := (forall l :: l in result.limitations ==> rule.def.id in l.ruleIds)
        && (forall f :: f in result.facts ==> Owned(rule.def, f.rule, f.requirementIds) && Known(f.evidenceIds, EvidenceIds(context.evidence)));
      if !(newFacts && newLimitations && valid) { Fail(rule.def, true, None); return; }
      IdsAppend(facts, result.facts, (x: Fact) => x.id);
      facts := facts + result.facts;
      factIds := factIds + AsSet(FactIds(result.facts));
      PushLimitations(result.limitations);
    }

    method RunFactRules(view: View, rules: seq<FactRule>)
      requires Valid()
      modifies this
      ensures Valid() && State() == FactStage(context, view, old(State()), rules)
    {
      hide FactStep;
      for i := 0 to |rules|
        invariant Valid() && FactStage(context, view, State(), rules[i..]) == FactStage(context, view, old(State()),
          rules)
      {
        assert rules[i..][0] == rules[i] && rules[i..][1..] == rules[i + 1..];
        RunFactRule(view, rules[i]);
      }
    }

    method RunFindingRule(view: View, rule: FindingRule)
      requires Valid()
      modifies this
      ensures Valid() && State() == FindingStep(context, view, old(State()), rule)
    {
      hide Failed, FindingAccepted, Distinct;
      var result := rule.evaluate(view);
      if result.FindingsThrew? { Fail(rule.def, result.invariantError, None); return; }
      var newFindings := NoDuplicateIds(candidateIds, CandidateIds(candidates), CandidateIds(result.findings));
      var newLimitations := NoDuplicateIds(limitationIds, LimitationIds(limitations),
        LimitationIds(result.limitations));
      var valid := (forall l :: l in result.limitations ==> rule.def.id in l.ruleIds)
        && (forall f :: f in result.findings ==> FindingAccepted(context, State(), rule.def, result.limitations, f));
      if !(newFindings && newLimitations && valid) { Fail(rule.def, true, None); return; }
      IdsAppend(candidates, result.findings, (x: Candidate) => x.id);
      candidates := candidates + result.findings;
      candidateIds := candidateIds + AsSet(CandidateIds(result.findings));
      PushLimitations(result.limitations);
    }

    method RunFindingRules(view: View, rules: seq<FindingRule>)
      requires Valid()
      modifies this
      ensures Valid() && State() == FindingStage(context, view, old(State()), rules)
    {
      hide FindingStep;
      for i := 0 to |rules|
        invariant Valid() && FindingStage(context, view, State(), rules[i..]) == FindingStage(context, view,
          old(State()), rules)
      {
        assert rules[i..][0] == rules[i] && rules[i..][1..] == rules[i + 1..];
        RunFindingRule(view, rules[i]);
      }
    }

    method Prioritize(view: View, prioritizer: Prioritizer, candidate: Candidate)
      requires Valid()
      modifies this
      ensures Valid() && State() == PriorityStep(view, old(State()), prioritizer, candidate)
    {
      hide Failed;
      var result := prioritizer.prioritize(view, candidate);
      if result.PriorityThrew? { Fail(prioritizer.def, result.invariantError, Some(candidate)); return; }
      if result.priority.rule != RuleRef(prioritizer.def.id, prioritizer.def.version) || candidate.id in findingIds {
        Fail(prioritizer.def, true, Some(candidate));
        return;
      }
      var finding := Finding(candidate, result.priority);
      IdsAppend(findings, [finding], (x: Finding) => x.base.id);
      assert FindingIds([finding]) == [candidate.id];
      findings := findings + [finding];
      findingIds := findingIds + {candidate.id};
    }

    method PrioritizeAll(view: View, prioritizer: Prioritizer, all: seq<Candidate>)
      requires Valid()
      modifies this
      ensures Valid() && State() == PriorityStage(view, old(State()), prioritizer, all)
    {
      hide PriorityStep;
      for i := 0 to |all|
        invariant Valid() && PriorityStage(view, State(), prioritizer, all[i..]) == PriorityStage(view, old(State()),
          prioritizer, all)
      {
        assert all[i..][0] == all[i] && all[i..][1..] == all[i + 1..];
        Prioritize(view, prioritizer, all[i]);
      }
    }

    method RunRecommendationRule(view: View, rule: RecommendationRule)
      requires Valid()
      modifies this
      ensures Valid() && State() == RecommendationStep(context, view, old(State()), rule)
    {
      hide Failed, RecommendationAccepted, Distinct;
      var result := rule.evaluate(view);
      if result.RecommendationsThrew? { Fail(rule.def, result.invariantError, None); return; }
      var newOnes := NoDuplicateIds(recommendationIds, RecommendationIds(recommendations),
        RecommendationIds(result.recommendations));
      var newLimitations := NoDuplicateIds(limitationIds, LimitationIds(limitations),
        LimitationIds(result.limitations));
      var valid := (forall l :: l in result.limitations ==> rule.def.id in l.ruleIds)
        && (forall r :: r in result.recommendations ==> RecommendationAccepted(context, State(), rule.def, r));
      if !(newOnes && newLimitations && valid) { Fail(rule.def, true, None); return; }
      IdsAppend(recommendations, result.recommendations, (x: Recommendation) => x.id);
      recommendations := recommendations + result.recommendations;
      recommendationIds := recommendationIds + AsSet(RecommendationIds(result.recommendations));
      PushLimitations(result.limitations);
    }

    method RunRecommendationRules(view: View, rules: seq<RecommendationRule>)
      requires Valid()
      modifies this
      ensures Valid() && State() == RecommendationStage(context, view, old(State()), rules)
    {
      hide RecommendationStep;
      for i := 0 to |rules|
        invariant Valid() && RecommendationStage(context, view, State(), rules[i..]) == RecommendationStage(context,
          view, old(State()), rules)
      {
        assert rules[i..][0] == rules[i] && rules[i..][1..] == rules[i + 1..];
        RunRecommendationRule(view, rules[i]);
      }
    }
  }

  /** `runRulePipeline`; `None` is the configuration error. */
  method RunRulePipeline(context: Context, rules: RuleSet) returns (result: Option<Store>)
    ensures result == Pipeline(context, rules)
    ensures result.Some? ==> RanInOrder(context, rules, result.value)
    ensures result.Some? && ContextOk(context) ==> forall scores ::
      Accepts(ReportOf(context, result.value, scores)) <==>
        UncheckedReferencesOk(context, result.value) && ScoresPart(ReportOf(context, result.value, scores))
  {
    hide RuleSetOk, FactStage, FindingStage, PriorityStage, RecommendationStage, Accepts, ScoresPart,
      UncheckedReferencesOk, RanInOrder;
    if !RuleSetOk(rules) { return None; }
    var run := new Run(context);
    run.RunFactRules(ViewOf(run.State()), SortedFactRules(rules.factRules));
    run.RunFindingRules(ViewOf(run.State()), SortedFindingRules(rules.findingRules));
    run.PrioritizeAll(ViewOf(run.State()), rules.prioritizer, run.candidates);
    run.RunRecommendationRules(LastView(run.State()), SortedRecommendationRules(rules.recommendationRules));
    result := Some(run.State());
    PipelineRunsInOrder(context, rules);
    if ContextOk(context) {
      forall scores ensures Accepts(ReportOf(context, result.value, scores)) <==>
        UncheckedReferencesOk(context, result.value) && ScoresPart(ReportOf(context, result.value, scores))
      {
        OnlyUncheckedReferencesCanFail(context, rules, scores);
      }
    }
  }
}
