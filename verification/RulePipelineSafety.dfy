/** What `runRulePipeline` guarantees for arbitrary rules: fresh identifiers, a store without
    dangling or duplicate references, all of a rule's output or none of it, and no influence of the
    order in which rules are listed. */
module RulePipelineSafety {
  import opened Text
  import opened ReportContract
  import opened RulePipelineModel

  // ----- allocated identifiers -----

  lemma {:induction false} FreeCounterIsSmall(preferred: string, used: set<string>, counter: nat)
    requires counter >= 2 && NumberedIds(preferred, counter) <= used
    ensures FirstFree(preferred, used, counter) <= |used| + 2
    decreases |used| + 2 - counter
  {
    CountersRunOut(preferred, used, counter);
    if Numbered(preferred, counter) in used {
      OneMoreTaken(preferred, used, counter);
      FreeCounterIsSmall(preferred, used, counter + 1);
    }
  }

  /** The allocated identifier is new and keeps within 200 characters (as long as the number of used
      identifiers is itself written with fewer than 200 digits); the preferred one is taken whenever
      it is free, and a suffix is the smallest that is free. */
  lemma {:induction false} AllocatedIdentifiersAreFreshAndShort(preferred: string, used: set<string>)
    ensures Allocate(preferred, used) !in used
    ensures |Decimal(|used| + 2)| < MAX_ID ==> |Allocate(preferred, used)| <= MAX_ID
    ensures |preferred| <= MAX_ID && preferred !in used ==> Allocate(preferred, used) == preferred
    ensures Allocate(preferred, used) == SliceTo(preferred, MAX_ID) ||
      exists n :: n >= 2 && Allocate(preferred, used) == Numbered(preferred, n) && forall k :: 2 <= k < n ==> Numbered(preferred, k) in used
  {
    assert NumberedIds(preferred, 2) == {};
    var n := FirstFree(preferred, used, 2);
    FreeCounterIsSmall(preferred, used, 2);
    DecimalGrows(n, |used| + 2);
  }

  // ----- ids of longer lists -----

  lemma IdsAppend<T>(a: seq<T>, b: seq<T>, id: T -> string)
    ensures Mapped(a + b, id) == Mapped(a, id) + Mapped(b, id)
  {
  }

  lemma {:induction false} NewIdsStayDistinct(used: seq<string>, ids: seq<string>)
    requires Distinct(used) && NewIds(used, ids)
    ensures Distinct(used + ids)
  {
    var all := used + ids;
    forall i, j | 0 <= i < j < |all| ensures all[i] != all[j] {
      if i < |used| && j >= |used| { assert all[j] in ids; }
    }
  }

  lemma OneNewId(used: seq<string>, id: string)
    requires Distinct(used) && id !in used
    ensures Distinct(used + [id])
  {
  }

  // ----- the invariant of the store -----

  predicate CandidateOk(f: Candidate, facts: seq<string>, evidence: seq<string>, limitations: seq<string>) {
    && Known(f.evidenceIds, evidence) && Known(f.factIds, facts) && Known(f.limitationIds, limitations)
    && (f.confidence.Some? ==> Known(f.confidence.value, facts) && Known(f.confidence.value, f.factIds))
  }

  predicate UniqueStore(s: Store) {
    && Distinct(FactIds(s.facts)) && Distinct(CandidateIds(s.candidates)) && Distinct(FindingIds(s.findings))
    && Distinct(RecommendationIds(s.recommendations)) && Distinct(LimitationIds(s.limitations)) && Distinct(FailureIds(s.failures))
  }

  predicate ClosedStore(c: Context, s: Store) {
    var facts, evidence, limitations := FactIds(s.facts), EvidenceIds(c.evidence), LimitationIds(s.limitations);
    && (forall f :: f in s.facts ==> Known(f.evidenceIds, evidence))
    && (forall f :: f in s.candidates ==> CandidateOk(f, facts, evidence, limitations))
    && (forall f :: f in s.findings ==> CandidateOk(f.base, facts, evidence, limitations))
    && (forall r :: r in s.recommendations ==> RecommendationOk(r, s.findings, facts, evidence))
    && (forall f :: f in s.failures ==> FailureOk(f, SourceIds(c.sources)))
  }

  predicate Sound(c: Context, s: Store) {
    UniqueStore(s) && ClosedStore(c, s)
  }

  lemma {:induction false} FailedIsSound(c: Context, s: Store, def: RuleDef, invariantError: bool,
      finding: Option<Candidate>)
    requires Sound(c, s)
    ensures Sound(c, Failed(s, def, invariantError, finding))
  {
    hide Allocate, RecommendationOk, FailureCode, Subject;
    var s' := Failed(s, def, invariantError, finding);
    var l, f := s'.limitations[|s.limitations|], s'.failures[|s.failures|];
    IdsAppend(s.limitations, [l], (x: Limitation) => x.id);
    IdsAppend(s.failures, [f], (x: Failure) => x.id);
    assert LimitationIds([l]) == [l.id] && FailureIds([f]) == [f.id];
    OneNewId(LimitationIds(s.limitations), l.id);
    OneNewId(FailureIds(s.failures), f.id);
  }

  /** Adding accepted limitations endangers nothing. */
  lemma {:induction false} LimitationsGrow(s: Store, def: RuleDef, limitations: seq<Limitation>)
    requires Distinct(LimitationIds(s.limitations)) && LimitationsAccepted(s, def, limitations)
    ensures LimitationIds(s.limitations + limitations) == LimitationIds(s.limitations) + LimitationIds(limitations)
    ensures Distinct(LimitationIds(s.limitations + limitations))
  {
    IdsAppend(s.limitations, limitations, (x: Limitation) => x.id);
    NewIdsStayDistinct(LimitationIds(s.limitations), LimitationIds(limitations));
  }

  lemma {:induction false} FactStepIsSound(c: Context, view: View, s: Store, rule: FactRule)
    requires Sound(c, s) && s.recommendations == []
    ensures Sound(c, FactStep(c, view, s, rule)) && FactStep(c, view, s, rule).recommendations == []
  {
    hide Failed, RecommendationOk, Owned;
    match rule.evaluate(view) {
      case FactsThrew(invariantError) => FailedIsSound(c, s, rule.def, invariantError, None); FailedKeeps(s, rule.def,
        invariantError, None);
      case FactsEmitted(facts, limitations) =>
        FailedIsSound(c, s, rule.def, true, None);
        FailedKeeps(s, rule.def, true, None);
        if FactsAccepted(c, s, rule.def, facts, limitations) {
          LimitationsGrow(s, rule.def, limitations);
          IdsAppend(s.facts, facts, (x: Fact) => x.id);
          NewIdsStayDistinct(FactIds(s.facts), FactIds(facts));
        }
    }
  }

  lemma FailedKeeps(s: Store, def: RuleDef, invariantError: bool, finding: Option<Candidate>)
    ensures var s' := Failed(s, def, invariantError, finding);
      s'.facts == s.facts && s'.candidates == s.candidates && s'.findings == s.findings && s'.recommendations == s.recommendations
  {
  }

  lemma {:induction false} FindingStepIsSound(c: Context, view: View, s: Store, rule: FindingRule)
    requires Sound(c, s)
    ensures Sound(c, FindingStep(c, view, s, rule))
  {
    hide Failed, RecommendationOk, Owned;
    match rule.evaluate(view) {
      case FindingsThrew(invariantError) => FailedIsSound(c, s, rule.def, invariantError, None);
      case FindingsEmitted(findings, limitations) =>
        FailedIsSound(c, s, rule.def, true, None);
        if FindingsAccepted(c, s, rule.def, findings, limitations) {
          LimitationsGrow(s, rule.def, limitations);
          IdsAppend(s.candidates, findings, (x: Candidate) => x.id);
          NewIdsStayDistinct(CandidateIds(s.candidates), CandidateIds(findings));
        }
    }
  }

  lemma {:induction false} PriorityStepIsSound(c: Context, view: View, s: Store, prioritizer: Prioritizer,
      candidate: Candidate)
    requires Sound(c, s) && candidate in s.candidates && s.recommendations == []
    ensures Sound(c, PriorityStep(view, s, prioritizer, candidate))
    ensures PriorityStep(view, s, prioritizer, candidate).recommendations == [] && PriorityStep(view, s, prioritizer, candidate).candidates == s.candidates
  {
    hide Failed, RecommendationOk, CandidateOk;
    match prioritizer.prioritize(view, candidate) {
      case PriorityThrew(invariantError) =>
        FailedIsSound(c, s, prioritizer.def, invariantError, Some(candidate));
        FailedKeeps(s, prioritizer.def, invariantError, Some(candidate));
      case Prioritized(priority) =>
        FailedIsSound(c, s, prioritizer.def, true, Some(candidate));
        FailedKeeps(s, prioritizer.def, true, Some(candidate));
        if candidate.id !in FindingIds(s.findings) {
          IdsAppend(s.findings, [Finding(candidate, priority)], (x: Finding) => x.base.id);
          assert FindingIds([Finding(candidate, priority)]) == [candidate.id];
          OneNewId(FindingIds(s.findings), candidate.id);
        }
    }
  }

  lemma {:induction false} RecommendationStepIsSound(c: Context, view: View, s: Store, rule: RecommendationRule)
    requires Sound(c, s)
    ensures Sound(c, RecommendationStep(c, view, s, rule))
  {
    hide Failed, Owned, CandidateOk, Heuristic;
    match rule.evaluate(view) {
      case RecommendationsThrew(invariantError) => FailedIsSound(c, s, rule.def, invariantError, None);
      case RecommendationsEmitted(recommendations, limitations) =>
        FailedIsSound(c, s, rule.def, true, None);
        if RecommendationsAccepted(c, s, rule.def, recommendations, limitations) {
          LimitationsGrow(s, rule.def, limitations);
          IdsAppend(s.recommendations, recommendations, (x: Recommendation) => x.id);
          NewIdsStayDistinct(RecommendationIds(s.recommendations), RecommendationIds(recommendations));
          CandidatesStayOk(c, s, limitations);
        }
    }
  }

  lemma CandidatesStayOk(c: Context, s: Store, limitations: seq<Limitation>)
    requires LimitationIds(s.limitations + limitations) == LimitationIds(s.limitations) + LimitationIds(limitations)
    ensures forall f :: CandidateOk(f, FactIds(s.facts), EvidenceIds(c.evidence), LimitationIds(s.limitations)) ==>
      CandidateOk(f, FactIds(s.facts), EvidenceIds(c.evidence), LimitationIds(s.limitations + limitations))
  {
  }

  // ----- the stages -----

  lemma {:induction false} FactStageIsSound(c: Context, view: View, s: Store, rules: seq<FactRule>)
    requires Sound(c, s) && s.recommendations == []
    ensures Sound(c, FactStage(c, view, s, rules)) && FactStage(c, view, s, rules).recommendations == []
    decreases |rules|
  {
    hide Sound, FactStep;
    if rules != [] {
      FactStepIsSound(c, view, s, rules[0]);
      FactStageIsSound(c, view, FactStep(c, view, s, rules[0]), rules[1..]);
    }
  }

  lemma {:induction false} FindingStageIsSound(c: Context, view: View, s: Store, rules: seq<FindingRule>)
    requires Sound(c, s) && s.recommendations == []
    ensures Sound(c, FindingStage(c, view, s, rules)) && FindingStage(c, view, s, rules).recommendations == []
    decreases |rules|
  {
    hide Sound;
    if rules != [] {
      FindingStepIsSound(c, view, s, rules[0]);
      FindingStageIsSound(c, view, FindingStep(c, view, s, rules[0]), rules[1..]);
    }
  }

  lemma {:induction false} PriorityStageIsSound(c: Context, view: View, s: Store, prioritizer: Prioritizer,
      candidates: seq<Candidate>)
    requires Sound(c, s) && s.recommendations == [] && forall f :: f in candidates ==> f in s.candidates
    ensures Sound(c, PriorityStage(view, s, prioritizer, candidates))
    decreases |candidates|
  {
    hide Sound, PriorityStep;
    if candidates != [] {
      PriorityStepIsSound(c, view, s, prioritizer, candidates[0]);
      PriorityStageIsSound(c, view, PriorityStep(view, s, prioritizer, candidates[0]), prioritizer, candidates[1..]);
    }
  }

  lemma {:induction false} RecommendationStageIsSound(c: Context, view: View, s: Store, rules: seq<RecommendationRule>)
    requires Sound(c, s)
    ensures Sound(c, RecommendationStage(c, view, s, rules))
    decreases |rules|
  {
    hide Sound, RecommendationStep;
    if rules != [] {
      RecommendationStepIsSound(c, view, s, rules[0]);
      RecommendationStageIsSound(c, view, RecommendationStep(c, view, s, rules[0]), rules[1..]);
    }
  }

  /** Inputs that are consistent in themselves. */
  predicate ContextOk(c: Context) {
    && Distinct(SourceIds(c.sources)) && Distinct(EvidenceIds(c.evidence))
    && Distinct(LimitationIds(c.limitations)) && Distinct(FailureIds(c.failures))
    && (forall e :: e in c.evidence ==> EvidenceOk(e, c.sources))
    && (forall f :: f in c.failures ==> FailureOk(f, SourceIds(c.sources)))
  }

  lemma {:induction false} PipelineIsSound(c: Context, rules: RuleSet)
    requires ContextOk(c)
    ensures Sound(c, AfterRecommendations(c, rules))
  {
    hide FactStage, FindingStage, PriorityStage, RecommendationStage;
    assert Sound(c, StartOf(c));
    FactStageIsSound(c, ViewOf(StartOf(c)), StartOf(c), SortedFactRules(rules.factRules));
    FindingStageIsSound(c, ViewOf(AfterFacts(c, rules)), AfterFacts(c, rules), SortedFindingRules(rules.findingRules));
    var s := AfterFindings(c, rules);
    PriorityStageIsSound(c, ViewOf(s), s, rules.prioritizer, s.candidates);
    RecommendationStageIsSound(c, LastView(AfterPriorities(c, rules)), AfterPriorities(c, rules),
      SortedRecommendationRules(rules.recommendationRules));
  }

  // ----- what the independent checker still has to find -----

  function ReportOf(c: Context, s: Store, scores: Scores): Report {
    Report(c.sources, c.evidence, s.facts, s.findings, s.recommendations, s.limitations, s.failures, scores)
  }

  /** The three kinds of reference the pipeline does not check itself. */
  predicate UncheckedReferencesOk(c: Context, s: Store) {
    && (forall l :: l in s.limitations ==> Known(l.sourceIds, SourceIds(c.sources)))
    && (forall f, k :: f in s.findings && 0 <= k < |f.priority.factors| ==> Known(f.priority.factors[k], EvidenceIds(c.evidence)))
    && (forall f :: f in s.facts ==> CheckLimitationsOk(f, LimitationIds(s.limitations)))
  }

  /** What the report says about scores, given the rest of it. */
  predicate ScoresPart(r: Report) {
    && Distinct(ContributionIds(r.scores.contributions))
    && (forall x :: x in r.scores.contributions ==> ContributionOk(x, FactIds(r.facts), FindingIds(r.findings), EvidenceIds(r.evidence)))
    && ScoresAgree(r)
  }

  /** For arbitrary rules, the pipeline's result joined with consistent inputs passes the independent
      checker exactly when the three unchecked kinds of reference and the scores do. */
  lemma {:induction false} OnlyUncheckedReferencesCanFail(c: Context, rules: RuleSet, scores: Scores)
    requires ContextOk(c) && RuleSetOk(rules)
    ensures Pipeline(c, rules).Some?
    ensures var s := Pipeline(c, rules).value;
      Accepts(ReportOf(c, s, scores)) <==> UncheckedReferencesOk(c, s) && ScoresPart(ReportOf(c, s, scores))
  {
    hide AfterRecommendations, RecommendationOk, EvidenceOk, ContributionOk, ScoresAgree, FailureOk,
      CheckLimitationsOk, RuleSetOk;
    PipelineIsSound(c, rules);
  }

  // ----- hypotheses on rules under which nothing can fail -----

  ghost predicate FactRuleCareful(c: Context, rule: FactRule) {
    forall view :: rule.evaluate(view).FactsEmitted? ==>
      && (forall l :: l in rule.evaluate(view).limitations ==> Known(l.sourceIds, SourceIds(c.sources)))
      && (forall f :: f in rule.evaluate(view).facts ==>
            CheckLimitationsOk(f, LimitationIds(view.limitations) + LimitationIds(rule.evaluate(view).limitations)))
  }

  ghost predicate FindingRuleCareful(c: Context, rule: FindingRule) {
    forall view :: rule.evaluate(view).FindingsEmitted? ==>
      forall l :: l in rule.evaluate(view).limitations ==> Known(l.sourceIds, SourceIds(c.sources))
  }

  ghost predicate RecommendationRuleCareful(c: Context, rule: RecommendationRule) {
    forall view :: rule.evaluate(view).RecommendationsEmitted? ==>
      forall l :: l in rule.evaluate(view).limitations ==> Known(l.sourceIds, SourceIds(c.sources))
  }

  ghost predicate PrioritizerCareful(c: Context, p: Prioritizer) {
    forall view, f :: p.prioritize(view, f).Prioritized? ==>
      forall k :: 0 <= k < |p.prioritize(view, f).priority.factors| ==> Known(p.prioritize(view, f).priority.factors[k], EvidenceIds(c.evidence))
  }

  ghost predicate Careful(c: Context, rules: RuleSet) {
    && (forall r :: r in rules.factRules ==> FactRuleCareful(c, r))
    && (forall r :: r in rules.findingRules ==> FindingRuleCareful(c, r))
    && PrioritizerCareful(c, rules.prioritizer)
    && (forall r :: r in rules.recommendationRules ==> RecommendationRuleCareful(c, r))
    && (forall l :: l in c.limitations ==> Known(l.sourceIds, SourceIds(c.sources)))
  }

  /** Limitations only accumulate. */
  predicate Remembers(s: Store, earlier: seq<Limitation>) {
    forall l :: l in earlier ==> l in s.limitations
  }

  lemma IdsOfMembers(a: seq<Limitation>, b: seq<Limitation>)
    requires forall l :: l in a ==> l in b
    ensures forall id :: id in LimitationIds(a) ==> id in LimitationIds(b)
  {
    forall id | id in LimitationIds(a) ensures id in LimitationIds(b) {
      var i :| 0 <= i < |a| && LimitationIds(a)[i] == id;
      assert a[i] in b;
      var j :| 0 <= j < |b| && b[j] == a[i];
      assert LimitationIds(b)[j] == id;
    }
  }

  lemma {:induction false} FailedStaysClosed(c: Context, s: Store, def: RuleDef, invariantError: bool,
      finding: Option<Candidate>)
    requires UncheckedReferencesOk(c, s)
    ensures UncheckedReferencesOk(c, Failed(s, def, invariantError, finding))
    ensures forall l :: l in s.limitations ==> l in Failed(s, def, invariantError, finding).limitations
  {
    hide Allocate, FailureCode, Subject;
    IdsOfMembers(s.limitations, Failed(s, def, invariantError, finding).limitations);
  }

  lemma {:induction false} FactStageStaysClosed(c: Context, view: View, s: Store, rules: seq<FactRule>)
    requires UncheckedReferencesOk(c, s) && Remembers(s, view.limitations) && forall r :: r in rules ==> FactRuleCareful(c, r)
    ensures UncheckedReferencesOk(c, FactStage(c, view, s, rules))
    decreases |rules|
  {
    hide Failed, FactsAccepted;
    if rules != [] {
      var rule := rules[0];
      var s' := FactStep(c, view, s, rule);
      assert FactRuleCareful(c, rule);
      match rule.evaluate(view) {
        case FactsThrew(invariantError) => FailedStaysClosed(c, s, rule.def, invariantError, None);
        case FactsEmitted(facts, limitations) =>
          FailedStaysClosed(c, s, rule.def, true, None);
          IdsOfMembers(view.limitations, s.limitations);
          IdsOfMembers(s.limitations, s.limitations + limitations);
          IdsOfMembers(limitations, s.limitations + limitations);
      }
      FactStageStaysClosed(c, view, s', rules[1..]);
    }
  }

  lemma {:induction false} FindingStageStaysClosed(c: Context, view: View, s: Store, rules: seq<FindingRule>)
    requires UncheckedReferencesOk(c, s) && forall r :: r in rules ==> FindingRuleCareful(c, r)
    ensures UncheckedReferencesOk(c, FindingStage(c, view, s, rules))
    decreases |rules|
  {
    hide Failed, FindingsAccepted;
    if rules != [] {
      var rule := rules[0];
      assert FindingRuleCareful(c, rule);
      match rule.evaluate(view) {
        case FindingsThrew(invariantError) => FailedStaysClosed(c, s, rule.def, invariantError, None);
        case FindingsEmitted(findings, limitations) =>
          FailedStaysClosed(c, s, rule.def, true, None);
          IdsOfMembers(s.limitations, s.limitations + limitations);
      }
      FindingStageStaysClosed(c, view, FindingStep(c, view, s, rule), rules[1..]);
    }
  }

  lemma {:induction false} PriorityStageStaysClosed(c: Context, view: View, s: Store, prioritizer: Prioritizer,
      candidates: seq<Candidate>)
    requires UncheckedReferencesOk(c, s) && PrioritizerCareful(c, prioritizer)
    ensures UncheckedReferencesOk(c, PriorityStage(view, s, prioritizer, candidates))
    decreases |candidates|
  {
    hide Failed;
    if candidates != [] {
      match prioritizer.prioritize(view, candidates[0]) {
        case PriorityThrew(invariantError) => FailedStaysClosed(c, s, prioritizer.def, invariantError,
          Some(candidates[0]));
        case Prioritized(priority) => FailedStaysClosed(c, s, prioritizer.def, true, Some(candidates[0]));
      }
      PriorityStageStaysClosed(c, view, PriorityStep(view, s, prioritizer, candidates[0]), prioritizer,
        candidates[1..]);
    }
  }

  lemma {:induction false} RecommendationStageStaysClosed(c: Context, view: View, s: Store,
      rules: seq<RecommendationRule>)
    requires UncheckedReferencesOk(c, s) && forall r :: r in rules ==> RecommendationRuleCareful(c, r)
    ensures UncheckedReferencesOk(c, RecommendationStage(c, view, s, rules))
    decreases |rules|
  {
    hide Failed, RecommendationsAccepted;
    if rules != [] {
      var rule := rules[0];
      assert RecommendationRuleCareful(c, rule);
      match rule.evaluate(view) {
        case RecommendationsThrew(invariantError) => FailedStaysClosed(c, s, rule.def, invariantError, None);
        case RecommendationsEmitted(recommendations, limitations) =>
          FailedStaysClosed(c, s, rule.def, true, None);
          IdsOfMembers(s.limitations, s.limitations + limitations);
      }
      RecommendationStageStaysClosed(c, view, RecommendationStep(c, view, s, rule), rules[1..]);
    }
  }

  /** Rules that cite only known sources in limitations, known evidence in priority factors and
      visible limitations in inspection checks: the checker then finds nothing outside the scores. */
  lemma {:induction false} CarefulRulesMakeAcceptedReports(c: Context, rules: RuleSet, scores: Scores)
    requires ContextOk(c) && RuleSetOk(rules) && Careful(c, rules)
    ensures var s := Pipeline(c, rules).value;
      UncheckedReferencesOk(c, s) && (Accepts(ReportOf(c, s, scores)) <==> ScoresPart(ReportOf(c, s, scores)))
  {
    hide FactStage, FindingStage, PriorityStage, RecommendationStage, Accepts, ScoresPart, RuleSetOk,
      FactRuleCareful, FindingRuleCareful, RecommendationRuleCareful, PrioritizerCareful, UncheckedReferencesOk;
    SortMembers(ByKey((r: FactRule) => r.def.id), rules.factRules);
    SortMembers(ByKey((r: FindingRule) => r.def.id), rules.findingRules);
    SortMembers(ByKey((r: RecommendationRule) => r.def.id), rules.recommendationRules);
    assert UncheckedReferencesOk(c, StartOf(c)) by { StartIsClosed(c, rules); }
    FactStageStaysClosed(c, ViewOf(StartOf(c)), StartOf(c), SortedFactRules(rules.factRules));
    FindingStageStaysClosed(c, ViewOf(AfterFacts(c, rules)), AfterFacts(c, rules),
      SortedFindingRules(rules.findingRules));
    var s := AfterFindings(c, rules);
    PriorityStageStaysClosed(c, ViewOf(s), s, rules.prioritizer, s.candidates);
    RecommendationStageStaysClosed(c, LastView(AfterPriorities(c, rules)), AfterPriorities(c, rules),
      SortedRecommendationRules(rules.recommendationRules));
    OnlyUncheckedReferencesCanFail(c, rules, scores);
  }

  lemma StartIsClosed(c: Context, rules: RuleSet)
    requires Careful(c, rules)
    ensures UncheckedReferencesOk(c, StartOf(c))
  {
  }

  // ----- all of a rule's output, or none of it -----

  /** Nothing but exactly one limitation naming the rule, and one partial failure. */
  predicate OnlyFailed(s: Store, s': Store, def: RuleDef) {
    && |s'.limitations| == |s.limitations| + 1 && |s'.failures| == |s.failures| + 1
    && s' == s.(limitations := s.limitations + [s'.limitations[|s.limitations|]], failures := s.failures + [s'.failures[|s.failures|]])
    && s'.limitations[|s.limitations|].partialFailure && s'.limitations[|s.limitations|].ruleIds == [def.id]
    && s'.failures[|s.failures|].scope == OfRule(RuleRef(def.id, def.version))
  }

  /** Every rule contributes all it emitted, or nothing but its limitation and partial failure; and
      it contributes only if it did not throw. */
  lemma {:induction false} StepsAddAllOrNothing(c: Context, view: View, s: Store, f: FactRule, g: FindingRule,
      p: Prioritizer, x: Candidate, r: RecommendationRule)
    ensures var s' := FactStep(c, view, s, f);
      || OnlyFailed(s, s', f.def)
      || (f.evaluate(view).FactsEmitted? &&
            s' == s.(facts := s.facts + f.evaluate(view).facts, limitations := s.limitations + f.evaluate(view).limitations))
    ensures var s' := FindingStep(c, view, s, g);
      || OnlyFailed(s, s', g.def)
      || (g.evaluate(view).FindingsEmitted? &&
            s' == s.(candidates := s.candidates + g.evaluate(view).findings, limitations := s.limitations + g.evaluate(view).limitations))
    ensures var s' := PriorityStep(view, s, p, x);
      || OnlyFailed(s, s', p.def)
      || (p.prioritize(view, x).Prioritized? && s' == s.(findings := s.findings + [Finding(x, p.prioritize(view, x).priority)]))
    ensures var s' := RecommendationStep(c, view, s, r);
      || OnlyFailed(s, s', r.def)
      || (r.evaluate(view).RecommendationsEmitted? &&
            s' == s.(recommendations := s.recommendations + r.evaluate(view).recommendations, limitations := s.limitations + r.evaluate(view).limitations))
  {
    hide Allocate, FactsAccepted, FindingsAccepted, RecommendationsAccepted, FailureCode, Subject;
  }

  // ----- failures are counted -----

  predicate FactRuleFails(c: Context, view: View, s: Store, rule: FactRule) {
    var o := rule.evaluate(view);
    o.FactsThrew? || !FactsAccepted(c, s, rule.def, o.facts, o.limitations)
  }

  predicate FindingRuleFails(c: Context, view: View, s: Store, rule: FindingRule) {
    var o := rule.evaluate(view);
    o.FindingsThrew? || !FindingsAccepted(c, s, rule.def, o.findings, o.limitations)
  }

  predicate PriorityFails(view: View, s: Store, p: Prioritizer, x: Candidate) {
    var o := p.prioritize(view, x);
    o.PriorityThrew? || o.priority.rule != RuleRef(p.def.id, p.def.version) || x.id in FindingIds(s.findings)
  }

  predicate RecommendationRuleFails(c: Context, view: View, s: Store, rule: RecommendationRule) {
    var o := rule.evaluate(view);
    o.RecommendationsThrew? || !RecommendationsAccepted(c, s, rule.def, o.recommendations, o.limitations)
  }

  function One(yes: bool): nat {
    if yes then 1 else 0
  }

  function FailedFactRules(c: Context, view: View, s: Store, rules: seq<FactRule>): nat
    decreases |rules|
  {
    if rules == [] then 0
    else One(FactRuleFails(c, view, s, rules[0])) + FailedFactRules(c, view, FactStep(c, view, s, rules[0]), rules[1..])
  }

  function FailedFindingRules(c: Context, view: View, s: Store, rules: seq<FindingRule>): nat
    decreases |rules|
  {
    if rules == [] then 0
    else One(FindingRuleFails(c, view, s, rules[0])) + FailedFindingRules(c, view, FindingStep(c, view, s, rules[0]),
      rules[1..])
  }

  function FailedPriorities(view: View, s: Store, p: Prioritizer, candidates: seq<Candidate>): nat
    decreases |candidates|
  {
    if candidates == [] then 0
    else One(PriorityFails(view, s, p, candidates[0])) + FailedPriorities(view,
      PriorityStep(view, s, p, candidates[0]), p, candidates[1..])
  }

  function FailedRecommendationRules(c: Context, view: View, s: Store, rules: seq<RecommendationRule>): nat
    decreases |rules|
  {
    if rules == [] then 0
    else One(RecommendationRuleFails(c, view, s, rules[0])) + FailedRecommendationRules(c, view,
      RecommendationStep(c, view, s, rules[0]), rules[1..])
  }

  lemma {:induction false} FactStageCounts(c: Context, view: View, s: Store, rules: seq<FactRule>)
    ensures |FactStage(c, view, s, rules).failures| == |s.failures| + FailedFactRules(c, view, s, rules)
    decreases |rules|
  {
    hide FactsAccepted, Allocate;
    if rules != [] { FactStageCounts(c, view, FactStep(c, view, s, rules[0]), rules[1..]); }
  }

  lemma {:induction false} FindingStageCounts(c: Context, view: View, s: Store, rules: seq<FindingRule>)
    ensures |FindingStage(c, view, s, rules).failures| == |s.failures| + FailedFindingRules(c, view, s, rules)
    decreases |rules|
  {
    hide FindingsAccepted, Allocate;
    if rules != [] { FindingStageCounts(c, view, FindingStep(c, view, s, rules[0]), rules[1..]); }
  }

  lemma {:induction false} PriorityStageCounts(view: View, s: Store, p: Prioritizer, candidates: seq<Candidate>)
    ensures |PriorityStage(view, s, p, candidates).failures| == |s.failures| + FailedPriorities(view, s, p, candidates)
    ensures |PriorityStage(view, s, p, candidates).findings| + FailedPriorities(view, s, p, candidates)
      == |s.findings| + |candidates|
    decreases |candidates|
  {
    hide Allocate;
    if candidates != [] { PriorityStageCounts(view, PriorityStep(view, s, p, candidates[0]), p, candidates[1..]); }
  }

  lemma {:induction false} RecommendationStageCounts(c: Context, view: View, s: Store, rules: seq<RecommendationRule>)
    ensures |RecommendationStage(c, view, s, rules).failures| == |s.failures| + FailedRecommendationRules(c, view, s,
      rules)
    decreases |rules|
  {
    hide RecommendationsAccepted, Allocate;
    if rules != [] { RecommendationStageCounts(c, view, RecommendationStep(c, view, s, rules[0]), rules[1..]); }
  }

  /** The added partial failures are exactly the failed rules and failed priorities, and every
      candidate either became a finding or is one of the failed priorities. */
  lemma {:induction false} FailuresAreCounted(c: Context, rules: RuleSet)
    requires RuleSetOk(rules)
    ensures var s0, s1, s2, s3 := StartOf(c), AfterFacts(c, rules), AfterFindings(c, rules), AfterPriorities(c, rules);
      && |Pipeline(c, rules).value.failures| == |c.failures|
           + FailedFactRules(c, ViewOf(s0), s0, SortedFactRules(rules.factRules))
           + FailedFindingRules(c, ViewOf(s1), s1, SortedFindingRules(rules.findingRules))
           + FailedPriorities(ViewOf(s2), s2, rules.prioritizer, s2.candidates)
           + FailedRecommendationRules(c, LastView(s3), s3, SortedRecommendationRules(rules.recommendationRules))
      && |s3.findings| + FailedPriorities(ViewOf(s2), s2, rules.prioritizer, s2.candidates) == |s2.candidates|
  {
    hide FactStage, FindingStage, PriorityStage, RecommendationStage,
      FailedFactRules, FailedFindingRules, FailedPriorities, FailedRecommendationRules, RuleSetOk;
    var s0, s1, s2, s3 := StartOf(c), AfterFacts(c, rules), AfterFindings(c, rules), AfterPriorities(c, rules);
    FactStageCounts(c, ViewOf(s0), s0, SortedFactRules(rules.factRules));
    FindingStageCounts(c, ViewOf(s1), s1, SortedFindingRules(rules.findingRules));
    PriorityStageCounts(ViewOf(s2), s2, rules.prioritizer, s2.candidates);
    RecommendationStageCounts(c, LastView(s3), s3, SortedRecommendationRules(rules.recommendationRules));
    NoFindingsBeforePriorities(c, rules);
  }

  lemma {:induction false} NoFindingsBeforePriorities(c: Context, rules: RuleSet)
    ensures AfterFindings(c, rules).findings == []
  {
    FactStageHasNoFindings(c, ViewOf(StartOf(c)), StartOf(c), SortedFactRules(rules.factRules));
    FindingStageHasNoFindings(c, ViewOf(AfterFacts(c, rules)), AfterFacts(c, rules),
      SortedFindingRules(rules.findingRules));
  }

  lemma {:induction false} FactStageHasNoFindings(c: Context, view: View, s: Store, rules: seq<FactRule>)
    requires s.findings == []
    ensures FactStage(c, view, s, rules).findings == []
    decreases |rules|
  {
    hide FactsAccepted, Allocate;
    if rules != [] { FactStageHasNoFindings(c, view, FactStep(c, view, s, rules[0]), rules[1..]); }
  }

  lemma {:induction false} FindingStageHasNoFindings(c: Context, view: View, s: Store, rules: seq<FindingRule>)
    requires s.findings == []
    ensures FindingStage(c, view, s, rules).findings == []
    decreases |rules|
  {
    hide FindingsAccepted, Allocate;
    if rules != [] { FindingStageHasNoFindings(c, view, FindingStep(c, view, s, rules[0]), rules[1..]); }
  }

  // ----- what the whole run contributes -----

  /** The rules of a stage that do not fail, in the order they run. */
  function AcceptedFactRules(c: Context, view: View, s: Store, rules: seq<FactRule>): seq<FactRule>
    decreases |rules|
  {
    if rules == [] then []
    else
      (if FactRuleFails(c, view, s, rules[0]) then [] else [rules[0]])
      + AcceptedFactRules(c, view, FactStep(c, view, s, rules[0]), rules[1..])
  }

  function AcceptedFindingRules(c: Context, view: View, s: Store, rules: seq<FindingRule>): seq<FindingRule>
    decreases |rules|
  {
    if rules == [] then []
    else
      (if FindingRuleFails(c, view, s, rules[0]) then [] else [rules[0]])
      + AcceptedFindingRules(c, view, FindingStep(c, view, s, rules[0]), rules[1..])
  }

  function AcceptedCandidates(view: View, s: Store, p: Prioritizer, candidates: seq<Candidate>): seq<Candidate>
    decreases |candidates|
  {
    if candidates == [] then []
    else
      (if PriorityFails(view, s, p, candidates[0]) then [] else [candidates[0]])
      + AcceptedCandidates(view, PriorityStep(view, s, p, candidates[0]), p, candidates[1..])
  }

  function AcceptedRecommendationRules(c: Context, view: View, s: Store,
      rules: seq<RecommendationRule>): seq<RecommendationRule>
    decreases |rules|
  {
    if rules == [] then []
    else
      (if RecommendationRuleFails(c, view, s, rules[0]) then [] else [rules[0]])
      + AcceptedRecommendationRules(c, view, RecommendationStep(c, view, s, rules[0]), rules[1..])
  }

  /** All that the rules emit, one after the other. */
  function FactsOf(view: View, rules: seq<FactRule>): seq<Fact> {
    if rules == [] then []
    else (var o := rules[0].evaluate(view); if o.FactsEmitted? then o.facts else []) + FactsOf(view, rules[1..])
  }

  function CandidatesOf(view: View, rules: seq<FindingRule>): seq<Candidate> {
    if rules == [] then []
    else (var o := rules[0].evaluate(view); if o.FindingsEmitted? then o.findings else []) + CandidatesOf(view,
      rules[1..])
  }

  function FindingsOf(view: View, p: Prioritizer, candidates: seq<Candidate>): seq<Finding> {
    if candidates == [] then []
    else
      (var o := p.prioritize(view, candidates[0]); if o.Prioritized? then [Finding(candidates[0], o.priority)] else [])
      + FindingsOf(view, p, candidates[1..])
  }

  function RecommendationsOf(view: View, rules: seq<RecommendationRule>): seq<Recommendation> {
    if rules == [] then []
    else (var o := rules[0].evaluate(view); if o.RecommendationsEmitted? then o.recommendations else []) + RecommendationsOf(view, rules[1..])
  }

  lemma {:induction false} FactStageAdds(c: Context, view: View, s: Store, rules: seq<FactRule>)
    ensures var r, accepted := FactStage(c, view, s, rules), AcceptedFactRules(c, view, s, rules);
      && r == s.(facts := s.facts + FactsOf(view, accepted), limitations := r.limitations, failures := r.failures)
      && |accepted| + FailedFactRules(c, view, s, rules) == |rules|
    decreases |rules|
  {
    hide FactsAccepted, Allocate;
    if rules == [] { assert s.facts + [] == s.facts; return; }
    var s', rest := FactStep(c, view, s, rules[0]), rules[1..];
    FactStageAdds(c, view, s', rest);
    var accepted, later := AcceptedFactRules(c, view, s, rules), AcceptedFactRules(c, view, s', rest);
    if FactRuleFails(c, view, s, rules[0]) { assert accepted == later; }
    else { assert accepted[0] == rules[0] && accepted[1..] == later; }
  }

  lemma {:induction false} FindingStageAdds(c: Context, view: View, s: Store, rules: seq<FindingRule>)
    ensures var r, accepted := FindingStage(c, view, s, rules), AcceptedFindingRules(c, view, s, rules);
      && r == s.(candidates := s.candidates + CandidatesOf(view, accepted), limitations := r.limitations, failures := r.failures)
      && |accepted| + FailedFindingRules(c, view, s, rules) == |rules|
    decreases |rules|
  {
    hide FindingsAccepted, Allocate;
    if rules == [] { assert s.candidates + [] == s.candidates; return; }
    var s', rest := FindingStep(c, view, s, rules[0]), rules[1..];
    FindingStageAdds(c, view, s', rest);
    var accepted, later := AcceptedFindingRules(c, view, s, rules), AcceptedFindingRules(c, view, s', rest);
    if FindingRuleFails(c, view, s, rules[0]) { assert accepted == later; }
    else { assert accepted[0] == rules[0] && accepted[1..] == later; }
  }

  lemma {:induction false} PriorityStageAdds(view: View, s: Store, p: Prioritizer, candidates: seq<Candidate>)
    ensures var r, accepted := PriorityStage(view, s, p, candidates), AcceptedCandidates(view, s, p, candidates);
      && r == s.(findings := s.findings + FindingsOf(view, p, accepted), limitations := r.limitations, failures := r.failures)
      && |accepted| + FailedPriorities(view, s, p, candidates) == |candidates|
    decreases |candidates|
  {
    hide Allocate;
    if candidates == [] { assert s.findings + [] == s.findings; return; }
    var s', rest := PriorityStep(view, s, p, candidates[0]), candidates[1..];
    PriorityStageAdds(view, s', p, rest);
    var accepted, later := AcceptedCandidates(view, s, p, candidates), AcceptedCandidates(view, s', p, rest);
    if PriorityFails(view, s, p, candidates[0]) { assert accepted == later; }
    else { assert accepted[0] == candidates[0] && accepted[1..] == later; }
  }

  lemma {:induction false} RecommendationStageAdds(c: Context, view: View, s: Store, rules: seq<RecommendationRule>)
    ensures var r, accepted := RecommendationStage(c, view, s, rules), AcceptedRecommendationRules(c, view, s, rules);
      && r == s.(recommendations := s.recommendations + RecommendationsOf(view, accepted), limitations := r.limitations, failures := r.failures)
      && |accepted| + FailedRecommendationRules(c, view, s, rules) == |rules|
    decreases |rules|
  {
    hide RecommendationsAccepted, Allocate;
    if rules == [] { assert s.recommendations + [] == s.recommendations; return; }
    var s', rest := RecommendationStep(c, view, s, rules[0]), rules[1..];
    RecommendationStageAdds(c, view, s', rest);
    var accepted, later := AcceptedRecommendationRules(c, view, s, rules), AcceptedRecommendationRules(c, view, s',
      rest);
    if RecommendationRuleFails(c, view, s, rules[0]) { assert accepted == later; }
    else { assert accepted[0] == rules[0] && accepted[1..] == later; }
  }

  /** The result holds exactly what the accepted rules emit, whole and in the order of their ids, and
      every other rule is one of the counted failures. */
  lemma {:induction false} AllOrNothing(c: Context, rules: RuleSet)
    requires RuleSetOk(rules)
    ensures var s0, s1, s2, s3 := StartOf(c), AfterFacts(c, rules), AfterFindings(c, rules), AfterPriorities(c, rules);
      var factRules := AcceptedFactRules(c, ViewOf(s0), s0, SortedFactRules(rules.factRules));
      var findingRules := AcceptedFindingRules(c, ViewOf(s1), s1, SortedFindingRules(rules.findingRules));
      var candidates := AcceptedCandidates(ViewOf(s2), s2, rules.prioritizer, s2.candidates);
      var recommendationRules := AcceptedRecommendationRules(c, LastView(s3), s3,
        SortedRecommendationRules(rules.recommendationRules));
      var r := Pipeline(c, rules).value;
      && r.facts == FactsOf(ViewOf(s0), factRules)
      && r.candidates == CandidatesOf(ViewOf(s1), findingRules)
      && r.findings == FindingsOf(ViewOf(s2), rules.prioritizer, candidates)
      && r.recommendations == RecommendationsOf(LastView(s3), recommendationRules)
      && |r.failures| + |factRules| + |findingRules| + |candidates| + |recommendationRules|
           == |c.failures| + |rules.factRules| + |rules.findingRules| + |r.candidates| + |rules.recommendationRules|
  {
    hide FactStage, FindingStage, PriorityStage, RecommendationStage, AcceptedFactRules, AcceptedFindingRules,
      AcceptedCandidates,
      AcceptedRecommendationRules, FactsOf, CandidatesOf, FindingsOf, RecommendationsOf, RuleSetOk,
      FailedFactRules, FailedFindingRules, FailedPriorities, FailedRecommendationRules;
    var s0, s1, s2, s3 := StartOf(c), AfterFacts(c, rules), AfterFindings(c, rules), AfterPriorities(c, rules);
    FactStageAdds(c, ViewOf(s0), s0, SortedFactRules(rules.factRules));
    FindingStageAdds(c, ViewOf(s1), s1, SortedFindingRules(rules.findingRules));
    PriorityStageAdds(ViewOf(s2), s2, rules.prioritizer, s2.candidates);
    RecommendationStageAdds(c, LastView(s3), s3, SortedRecommendationRules(rules.recommendationRules));
    FailuresAreCounted(c, rules);
  }

  // ----- the order of rules does not matter -----

  ghost predicate Permuted(a: RuleSet, b: RuleSet) {
    && a.version == b.version && a.prioritizer == b.prioritizer
    && multiset(a.factRules) == multiset(b.factRules)
    && multiset(a.findingRules) == multiset(b.findingRules)
    && multiset(a.recommendationRules) == multiset(b.recommendationRules)
  }

  lemma {:induction false} MapPermutes<T, U(!new)>(x: seq<T>, y: seq<T>, f: T -> U)
    requires multiset(x) == multiset(y)
    ensures multiset(Mapped(x, f)) == multiset(Mapped(y, f))
    decreases |x|
  {
    assert |x| == |multiset(x)| == |multiset(y)| == |y|;
    if x == [] { assert Mapped(x, f) == Mapped(y, f); return; }
    var k := MatchInPermutation(x, y);
    var x', y' := x[1..], RemoveAt(y, k);
    MapPermutes(x', y', f);
    assert Mapped(x, f) == [f(x[0])] + Mapped(x', f);
    assert Mapped(y, f) == Mapped(y', f)[..k] + ([f(y[k])] + Mapped(y', f)[k..]);
    assert Mapped(y', f) == Mapped(y', f)[..k] + Mapped(y', f)[k..];
    assert multiset(Mapped(y, f)) == multiset(Mapped(y', f)) + multiset{f(y[k])};
  }

  lemma {:induction false} DistinctByMultiplicity(ids: seq<string>)
    ensures Distinct(ids) <==> forall id :: multiset(ids)[id] <= 1
    decreases |ids|
  {
    if ids == [] { return; }
    assert ids == [ids[0]] + ids[1..];
    assert multiset(ids) == multiset{ids[0]} + multiset(ids[1..]);
    DistinctByMultiplicity(ids[1..]);
    assert Distinct(ids) <==> Distinct(ids[1..]) && ids[0] !in ids[1..] by {
      if Distinct(ids) {
        forall i, j | 0 <= i < j < |ids[1..]| ensures ids[1..][i] != ids[1..][j] { assert ids[1..][i] == ids[i + 1] && ids[1..][j] == ids[j + 1]; }
        forall j | 0 <= j < |ids[1..]| ensures ids[1..][j] != ids[0] { assert ids[1..][j] == ids[j + 1]; }
      }
      if Distinct(ids[1..]) && ids[0] !in ids[1..] {
        forall i, j | 0 <= i < j < |ids| ensures ids[i] != ids[j] {
          assert ids[j] == ids[1..][j - 1];
          if i > 0 { assert ids[i] == ids[1..][i - 1]; }
        }
      }
    }
    assert multiset(ids)[ids[0]] == 1 + multiset(ids[1..])[ids[0]];
    if forall id :: multiset(ids)[id] <= 1 {
      forall id ensures multiset(ids[1..])[id] <= 1 { assert multiset(ids[1..])[id] <= multiset(ids)[id]; }
    }
    if Distinct(ids) {
      forall id ensures multiset(ids)[id] <= 1 {
        if id == ids[0] { assert id !in multiset(ids[1..]); }
      }
    }
  }

  lemma {:induction false} PermutedDefinitions(a: RuleSet, b: RuleSet)
    requires Permuted(a, b)
    ensures multiset(Definitions(a)) == multiset(Definitions(b))
  {
    var fact, finding, recommendation := (r: FactRule) => r.def, (r: FindingRule) => r.def, (r: RecommendationRule) => r.def;
    MapPermutes(a.factRules, b.factRules, fact);
    MapPermutes(a.findingRules, b.findingRules, finding);
    MapPermutes(a.recommendationRules, b.recommendationRules, recommendation);
    assert Definitions(a) == Mapped(a.factRules, fact) + Mapped(a.findingRules, finding) + [a.prioritizer.def] + Mapped(a.recommendationRules, recommendation);
    assert Definitions(b) == Mapped(b.factRules, fact) + Mapped(b.findingRules, finding) + [b.prioritizer.def] + Mapped(b.recommendationRules, recommendation);
  }

  lemma {:induction false} PermutedRuleSetsAreAlikeOk(a: RuleSet, b: RuleSet)
    requires Permuted(a, b)
    ensures RuleSetOk(a) <==> RuleSetOk(b)
  {
    hide DefinitionOk, Definitions, IdentifierOk, Distinct;
    PermutedDefinitions(a, b);
    var x, y := Definitions(a), Definitions(b);
    assert forall d :: d in x <==> d in multiset(x);
    assert forall d :: d in y <==> d in multiset(y);
    var f := (d: RuleDef) => d.id;
    MapPermutes(x, y, f);
    assert Mapped(x, (d: RuleDef) => d.id) == Mapped(x, f) && Mapped(y, (d: RuleDef) => d.id) == Mapped(y, f);
    DistinctByMultiplicity(Mapped(x, f));
    DistinctByMultiplicity(Mapped(y, f));
  }

  lemma {:induction false} RulesAreKeyedApart(rules: RuleSet)
    requires RuleSetOk(rules)
    ensures KeyedApart((r: FactRule) => r.def.id, rules.factRules)
    ensures KeyedApart((r: FindingRule) => r.def.id, rules.findingRules)
    ensures KeyedApart((r: RecommendationRule) => r.def.id, rules.recommendationRules)
  {
    hide DefinitionOk;
    var ids := Mapped(Definitions(rules), (d: RuleDef) => d.id);
    var n, m := |rules.factRules|, |rules.factRules| + |rules.findingRules|;
    forall x, y | x in rules.factRules && y in rules.factRules && x.def.id == y.def.id ensures x == y {
      var i :| 0 <= i < n && rules.factRules[i] == x;
      var j :| 0 <= j < n && rules.factRules[j] == y;
      assert ids[i] == x.def.id && ids[j] == y.def.id;
    }
    forall x, y | x in rules.findingRules && y in rules.findingRules && x.def.id == y.def.id ensures x == y {
      var i :| 0 <= i < |rules.findingRules| && rules.findingRules[i] == x;
      var j :| 0 <= j < |rules.findingRules| && rules.findingRules[j] == y;
      assert ids[n + i] == x.def.id && ids[n + j] == y.def.id;
    }
    forall x, y | x in rules.recommendationRules && y in rules.recommendationRules && x.def.id == y.def.id ensures x == y {
      var i :| 0 <= i < |rules.recommendationRules| && rules.recommendationRules[i] == x;
      var j :| 0 <= j < |rules.recommendationRules| && rules.recommendationRules[j] == y;
      assert ids[m + 1 + i] == x.def.id && ids[m + 1 + j] == y.def.id;
    }
  }

  /** The pipeline's result does not depend on the order in which a stage's rules are listed. */
  lemma {:induction false} RuleOrderDoesNotMatter(c: Context, a: RuleSet, b: RuleSet)
    requires Permuted(a, b)
    ensures Pipeline(c, a) == Pipeline(c, b)
  {
    hide RuleSetOk, FactStage, FindingStage, PriorityStage, RecommendationStage, Sort, KeyedApart;
    PermutedRuleSetsAreAlikeOk(a, b);
    if RuleSetOk(a) {
      RulesAreKeyedApart(a);
      PermutationsSortAlike((r: FactRule) => r.def.id, a.factRules, b.factRules);
      PermutationsSortAlike((r: FindingRule) => r.def.id, a.findingRules, b.findingRules);
      PermutationsSortAlike((r: RecommendationRule) => r.def.id, a.recommendationRules, b.recommendationRules);
    }
  }
}
