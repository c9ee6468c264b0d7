/** A rule set whose report the checker refuses: a readiness check whose fact is named like the
    contribution of the overall score. */
module StackHealthClash {
  import opened Text
  import opened ReportContract
  import opened RulePipelineModel
  import opened RulePipelineSafety
  import opened StackHealthModel
  import opened StackHealthSafety
  import opened StackHealthReport

  const RULE := RuleDef("R", "1", ["PRD-001"])
  const PRIORITIZER := RuleDef("P", "1", ["PRD-001"])
  const NO_INPUTS := Context([], [], [], [])

  function CheckFact(id: string, c: Category, state: CheckState): Fact {
    Fact(id, RuleRef("R", "1"), [], [], Some(Check("check", c, state, None, None, [])))
  }

  const CLASHING := CheckFact(CEILING, Testing, CheckPass)

  const FACTS := [
    CheckFact("d", Dependencies, CheckNotApplicable), CheckFact("e", Security, CheckNotApplicable),
    CheckFact("m", Maintainability, CheckNotApplicable), CLASHING, CheckFact("t", Tooling, CheckNotApplicable)]

  /** One rule, which emits the five facts. */
  function ClashingRules(): RuleSet {
    RuleSet("1", [FactRule(RULE, view => FactsEmitted(FACTS, []))], [],
      Prioritizer(PRIORITIZER, (view, x) => PriorityThrew(false)), [])
  }

  const RESULT := Store(FACTS, [], [], [], [], [])

  lemma RequirementIsWellFormed()
    ensures RequirementOk("PRD-001")
  {
    var prefix, id := "PRD", "PRD-001";
    assert prefix in ["PRD", "FR", "NFR", "SEC", "DATA", "SCORE", "GOV"] by {
      assert ["PRD", "FR", "NFR", "SEC", "DATA", "SCORE", "GOV"][0] == prefix;
    }
    assert |id| == |prefix| + 4 && id[..4] == prefix + "-";
    assert StartsWith(id, prefix + "-");
    assert forall i :: |prefix| < i < |id| ==> '0' <= id[i] <= '9';
  }

  lemma DefinitionsAreWellFormed()
    ensures DefinitionOk(RULE) && DefinitionOk(PRIORITIZER)
  {
    RequirementIsWellFormed();
    hide RequirementOk;
  }

  lemma ClashingRulesAreWellFormed()
    ensures RuleSetOk(ClashingRules())
  {
    DefinitionsAreWellFormed();
    hide DefinitionOk;
    var rules := ClashingRules();
    var definitions := Definitions(rules);
    assert definitions == [RULE, PRIORITIZER];
    var ids := Mapped(definitions, (d: RuleDef) => d.id);
    assert |ids| == 2 && ids[0] == "R" && ids[1] == "P";
  }

  lemma FactIdsAreDistinct()
    ensures FactIds(FACTS) == ["d", "e", "m", CEILING, "t"] && Distinct(FactIds(FACTS))
  {
    assert |CEILING| > 1;
  }

  lemma FactsAreAccepted()
    ensures FactsAccepted(NO_INPUTS, StartOf(NO_INPUTS), RULE, FACTS, [])
  {
    FactIdsAreDistinct();
    assert FactIds([]) == [] && LimitationIds([]) == [];
    hide FactIds, Distinct;
  }

  lemma ClashingResult()
    ensures Pipeline(NO_INPUTS, ClashingRules()) == Some(RESULT)
  {
    ClashingRulesAreWellFormed();
    FactsAreAccepted();
    hide RuleSetOk, FactsAccepted, Failed;
    var rules := ClashingRules();
    var rule := rules.factRules[0];
    assert [rule][1..] == [];
    assert SortedFactRules(rules.factRules) == [rule];
    var start := StartOf(NO_INPUTS);
    assert FactStep(NO_INPUTS, ViewOf(start), start, rule) == RESULT;
    assert FactStage(NO_INPUTS, ViewOf(start), RESULT, []) == RESULT;
    assert AfterFacts(NO_INPUTS, rules) == RESULT;
    assert AfterFindings(NO_INPUTS, rules) == RESULT;
    assert AfterPriorities(NO_INPUTS, rules) == RESULT;
    assert AfterRecommendations(NO_INPUTS, rules) == RESULT;
  }

  /** Every check of the other categories is without application. */
  lemma {:induction false} CategoriesOfResult(c: Category)
    ensures CategoryScore(RESULT, c).Rated?
    ensures if c == Testing then CategoryScore(RESULT, c).score.Available? else CategoryScore(RESULT, c).score.NotApplicable?
    ensures CLASHING in ContributingChecks(RESULT, Testing)
  {
    hide ChecksOf, CountState, Applicable, BandScore, ReadinessScore, ReasonsFor;
    Rating(c);
    Rating(Testing);
  }

  lemma {:induction false} Rating(c: Category)
    ensures !Unrated(RESULT, ChecksOf(FACTS, c))
    ensures c == Testing ==> CLASHING in Applicable(ChecksOf(FACTS, c))
    ensures c != Testing ==> Applicable(ChecksOf(FACTS, c)) == []
  {
    hide ChecksOf, CountState, Applicable;
    var checks := ChecksOf(FACTS, c);
    ChecksMembers(FACTS, c);
    CountedIsMember(checks, CheckUnknown);
    assert forall f :: f in FACTS ==> !InState(f, CheckUnknown) && (InState(f, CheckNotApplicable) || f == CLASHING);
    var own := match c
      case Dependencies => FACTS[0] case Security => FACTS[1] case Maintainability => FACTS[2] case Testing => FACTS[3] case Tooling => FACTS[4];
    assert own in FACTS && own in checks;
    if c != Testing && Applicable(checks) != [] { assert Applicable(checks)[0] in Applicable(checks); }
  }

  /** Consistent inputs, a well-formed rule set, no unknown reference and a scorer that does not throw;
      and yet the checker refuses the report. */
  lemma {:induction false} ClashingReportIsRefused()
    ensures ContextOk(NO_INPUTS) && RuleSetOk(ClashingRules())
    ensures var s := Pipeline(NO_INPUTS, ClashingRules());
      && s.Some? && UncheckedReferencesOk(NO_INPUTS, s.value) && StackHealth(s.value).Some?
      && CLASHING in s.value.facts && CLASHING.id == "overall-ceiling"
      && !Accepts(ReportOf(NO_INPUTS, s.value, StackHealth(s.value).value))
  {
    hide CategoryScore, Accepts, ContributingChecks, Pipeline;
    ClashingRulesAreWellFormed();
    ClashingResult();
    assert UncheckedReferencesOk(NO_INPUTS, RESULT);
    forall c: Category
      ensures CategoryScore(RESULT, c).Rated? && CLASHING in ContributingChecks(RESULT, Testing)
      ensures if c == Testing then CategoryScore(RESULT, c).score.Available? else CategoryScore(RESULT, c).score.NotApplicable?
    {
      CategoriesOfResult(c);
    }
    OverallIsAvailable();
    var categories := StackHealth(RESULT).value.categories;
    assert NameClash(RESULT, categories) by {
      var all := AllContributingChecks(RESULT);
      assert CLASHING in all;
      var i :| 0 <= i < |all| && all[i] == CLASHING;
      assert FactIds(all)[i] == CEILING;
      assert CEILING in [CEILING] && [CEILING][0] == CEILING;
      assert CEILING in FixedNames(RESULT, categories);
    }
    ReportIsAcceptedExactlyWithoutClash(NO_INPUTS, ClashingRules());
  }

  lemma {:induction false} OverallIsAvailable()
    ensures StackHealth(RESULT).Some?
    ensures var categories := StackHealth(RESULT).value.categories;
      OverallScore(RESULT, categories).Rated? && OverallScore(RESULT, categories).score.Available?
  {
    hide CategoryScore, Mean, Lower, AllChecks, CountState, EvidenceOf, AvailableValues, InsufficientReasons;
    forall c: Category
      ensures CategoryScore(RESULT, c).Rated?
      ensures if c == Testing then CategoryScore(RESULT, c).score.Available? else CategoryScore(RESULT, c).score.NotApplicable?
    {
      CategoriesOfResult(c);
    }
    var categories := Categories(CategoryScore(RESULT, Dependencies).score, CategoryScore(RESULT, Security).score,
      CategoryScore(RESULT, Maintainability).score, CategoryScore(RESULT, Testing).score, CategoryScore(RESULT, Tooling).score);
    assert !SomeInsufficient(categories);
    if AvailableValues(categories, ORDER) == [] {
      NoneAvailable(categories, ORDER);
      InOrder5(Testing);
      assert false;
    }
  }
}
