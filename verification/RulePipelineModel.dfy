/** `runRulePipeline` of `analyzer-core/src/pipeline.ts` as functions: four stages over a growing
    store, for rules that may throw or emit anything. */
module RulePipelineModel {
  import opened Text
  import opened ReportContract

  datatype RuleDef = RuleDef(id: string, version: string, requirementIds: seq<string>)

  /** A rule throws, possibly the pipeline's own invariant error (as schema validation does for
      malformed output), or emits entities of the right shape. */
  datatype FactOutcome = FactsThrew(invariantError: bool) | FactsEmitted(facts: seq<Fact>, limitations: seq<Limitation>)
  datatype FindingOutcome = FindingsThrew(invariantError: bool) | FindingsEmitted(findings: seq<Candidate>,
    limitations: seq<Limitation>)
  datatype PriorityOutcome = PriorityThrew(invariantError: bool) | Prioritized(priority: Priority)
  datatype RecommendationOutcome =
    | RecommendationsThrew(invariantError: bool)
    | RecommendationsEmitted(recommendations: seq<Recommendation>, limitations: seq<Limitation>)

  /** What the stages show their rules, beside the input all rules share. */
  datatype View = View(
    limitations: seq<Limitation>, failures: seq<Failure>, facts: seq<Fact>, candidates: seq<Candidate>, findings: seq<Finding>)

  datatype FactRule = FactRule(def: RuleDef, evaluate: View -> FactOutcome)
  datatype FindingRule = FindingRule(def: RuleDef, evaluate: View -> FindingOutcome)
  datatype Prioritizer = Prioritizer(def: RuleDef, prioritize: (View, Candidate) -> PriorityOutcome)
  datatype RecommendationRule = RecommendationRule(def: RuleDef, evaluate: View -> RecommendationOutcome)

  datatype RuleSet = RuleSet(
    version: string, factRules: seq<FactRule>, findingRules: seq<FindingRule>, prioritizer: Prioritizer, recommendationRules: seq<RecommendationRule>)

  datatype Context = Context(sources: seq<Source>, evidence: seq<Evidence>, limitations: seq<Limitation>,
    failures: seq<Failure>)

  datatype Store = Store(
    facts: seq<Fact>, candidates: seq<Candidate>, findings: seq<Finding>, recommendations: seq<Recommendation>,
    limitations: seq<Limitation>, failures: seq<Failure>)

  // ----- `assertRuleSet` -----

  predicate IdentifierOk(id: string) {
    1 <= |id| <= 200
  }

  predicate RequirementOk(id: string) {
    exists prefix :: prefix in ["PRD", "FR", "NFR", "SEC", "DATA", "SCORE", "GOV"]
      && StartsWith(id, prefix + "-") && |id| == |prefix| + 4
      && forall i :: |prefix| < i < |id| ==> '0' <= id[i] <= '9'
  }

  predicate DefinitionOk(def: RuleDef) {
    && IdentifierOk(def.id) && IdentifierOk(def.version) && def.requirementIds != []
    && forall r :: r in def.requirementIds ==> RequirementOk(r)
  }

  function Definitions(rules: RuleSet): seq<RuleDef> {
    seq(|rules.factRules|, i requires 0 <= i < |rules.factRules| => rules.factRules[i].def)
    + seq(|rules.findingRules|, i requires 0 <= i < |rules.findingRules| => rules.findingRules[i].def)
    + [rules.prioritizer.def]
    + seq(|rules.recommendationRules|, i requires 0 <= i < |rules.recommendationRules| => rules.recommendationRules[i].def)
  }

  predicate RuleSetOk(rules: RuleSet) {
    && IdentifierOk(rules.version)
    && (forall d :: d in Definitions(rules) ==> DefinitionOk(d))
    && Distinct(Mapped(Definitions(rules), (d: RuleDef) => d.id))
  }

  // ----- `allocateIdentifier` -----

  const MAX_ID: nat := 200

  function Decimal(n: nat): string {
    if n < 10 then ["0123456789"[n]] else Decimal(n / 10) + ["0123456789"[n % 10]]
  }

  /** `s.slice(0, n)`, where a negative `n` counts from the end. */
  function SliceTo(s: string, n: int): string {
    if n >= |s| then s else if n >= 0 then s[..n] else if |s| + n > 0 then s[..|s| + n] else ""
  }

  function Numbered(preferred: string, counter: nat): string {
    var suffix := "#" + Decimal(counter);
    SliceTo(preferred, MAX_ID - |suffix|) + suffix
  }

  lemma {:induction false} DecimalHasNoHash(n: nat)
    ensures '#' !in Decimal(n)
  {
    if n >= 10 { DecimalHasNoHash(n / 10); }
    else { assert forall i :: 0 <= i < 10 ==> "0123456789"[i] != '#'; }
  }

  lemma {:induction false} DecimalIsInjective(m: nat, n: nat)
    requires Decimal(m) == Decimal(n)
    ensures m == n
    decreases m
  {
    assert forall i, j :: 0 <= i < j < 10 ==> "0123456789"[i] != "0123456789"[j];
    DecimalLength(m);
    DecimalLength(n);
    if m >= 10 && n >= 10 {
      var a, b := Decimal(m / 10), Decimal(n / 10);
      assert a + ["0123456789"[m % 10]] == b + ["0123456789"[n % 10]];
      assert |a| == |b|;
      assert a == Decimal(m)[..|a|] && b == Decimal(n)[..|b|];
      assert Decimal(m)[|a|] == "0123456789"[m % 10] && Decimal(n)[|b|] == "0123456789"[n % 10];
      DecimalIsInjective(m / 10, n / 10);
    }
  }

  lemma DecimalLength(n: nat)
    ensures n < 10 ==> |Decimal(n)| == 1
    ensures n >= 10 ==> |Decimal(n)| >= 2
  {
    if n >= 10 { DecimalLength(n / 10); }
  }

  lemma {:induction false} DecimalGrows(m: nat, n: nat)
    requires m <= n
    ensures |Decimal(m)| <= |Decimal(n)|
    decreases n
  {
    if m >= 10 { DecimalGrows(m / 10, n / 10); }
  }

  lemma {:induction false} LastHashSplits(x: string, s: string, y: string, t: string)
    requires x + "#" + s == y + "#" + t && '#' !in s && '#' !in t
    ensures s == t
  {
    assert (x + "#" + s)[|x|] == '#' && (y + "#" + t)[|y|] == '#';
    assert s == (x + "#" + s)[|x| + 1..] && t == (y + "#" + t)[|y| + 1..];
    assert forall k :: |x| < k < |x + "#" + s| ==> (x + "#" + s)[k] == s[k - |x| - 1];
    assert forall k :: |y| < k < |y + "#" + t| ==> (y + "#" + t)[k] == t[k - |y| - 1];
  }

  /** Numbered ids of different counters differ: their last `#` starts the counter. */
  lemma {:induction false} NumberedAreDistinct(preferred: string, m: nat, n: nat)
    requires m != n
    ensures Numbered(preferred, m) != Numbered(preferred, n)
  {
    hide Decimal, SliceTo;
    var s, t := Decimal(m), Decimal(n);
    var x, y := SliceTo(preferred, MAX_ID - |"#" + s|), SliceTo(preferred, MAX_ID - |"#" + t|);
    assert Numbered(preferred, m) == x + "#" + s;
    assert Numbered(preferred, n) == y + "#" + t;
    if Numbered(preferred, m) == Numbered(preferred, n) {
      DecimalHasNoHash(m);
      DecimalHasNoHash(n);
      LastHashSplits(x, s, y, t);
      DecimalIsInjective(m, n);
    }
  }

  function NumberedIds(preferred: string, counter: nat): set<string>
    requires counter >= 2
  {
    set k | 2 <= k < counter :: Numbered(preferred, k)
  }

  lemma {:induction false} NumberedOneMore(preferred: string, counter: nat)
    requires counter > 2
    ensures NumberedIds(preferred, counter) == NumberedIds(preferred, counter - 1) + {Numbered(preferred, counter - 1)}
  {
    hide Numbered;
    forall x | x in NumberedIds(preferred, counter) ensures x in NumberedIds(preferred, counter - 1) + {Numbered(preferred, counter - 1)} {
      var k :| 2 <= k < counter && x == Numbered(preferred, k);
    }
  }

  lemma {:induction false} NumberedCount(preferred: string, counter: nat)
    requires counter >= 2
    ensures |NumberedIds(preferred, counter)| == counter - 2
    decreases counter
  {
    hide Numbered;
    if counter > 2 {
      NumberedCount(preferred, counter - 1);
      forall k | 2 <= k < counter - 1 ensures Numbered(preferred, k) != Numbered(preferred, counter - 1) {
        NumberedAreDistinct(preferred, k, counter - 1);
      }
      NumberedOneMore(preferred, counter);
    } else {
      assert NumberedIds(preferred, counter) == {};
    }
  }

  lemma SubsetIsSmaller<T>(a: set<T>, b: set<T>)
    requires a <= b
    ensures |a| <= |b|
  {
    assert b == a + (b - a);
  }

  /** As long as every smaller counter is taken, the counter cannot pass the number of used ids. */
  lemma {:induction false} CountersRunOut(preferred: string, used: set<string>, counter: nat)
    requires counter >= 2 && NumberedIds(preferred, counter) <= used
    ensures counter - 2 <= |used|
  {
    NumberedCount(preferred, counter);
    SubsetIsSmaller(NumberedIds(preferred, counter), used);
  }

  lemma {:induction false} OneMoreTaken(preferred: string, used: set<string>, counter: nat)
    requires counter >= 2 && NumberedIds(preferred, counter) <= used && Numbered(preferred, counter) in used
    ensures NumberedIds(preferred, counter + 1) <= used && counter - 1 <= |used|
  {
    assert NumberedIds(preferred, counter + 1) <= used;
    CountersRunOut(preferred, used, counter + 1);
  }

  function FirstFree(preferred: string, used: set<string>, counter: nat): (r: nat)
    requires counter >= 2 && NumberedIds(preferred, counter) <= used
    ensures Numbered(preferred, r) !in used && r >= counter
    ensures forall k :: counter <= k < r ==> Numbered(preferred, k) in used
    decreases |used| + 2 - counter
  {
    if Numbered(preferred, counter) !in used then counter
    else
      OneMoreTaken(preferred, used, counter);
      FirstFree(preferred, used, counter + 1)
  }

  function Allocate(preferred: string, used: set<string>): (r: string)
    ensures r !in used
  {
    var initial := SliceTo(preferred, MAX_ID);
    if initial !in used then initial
    else
      assert NumberedIds(preferred, 2) == {};
      Numbered(preferred, FirstFree(preferred, used, 2))
  }

  // ----- failed rules -----

  function FailureCode(priority: bool, invariantError: bool): string {
    if priority then if invariantError then "priority_output_invalid" else "priority_evaluation_failed"
    else if invariantError then "rule_output_invalid" else "rule_evaluation_failed"
  }

  function Subject(finding: Option<Candidate>): string {
    if finding == None then "" else ":" + finding.value.id
  }

  function AsSet(ids: seq<string>): set<string> {
    set id | id in ids
  }

  /** The limitation and the partial failure that stand for one failed rule or priority. */
  function Failed(s: Store, def: RuleDef, invariantError: bool, finding: Option<Candidate>): Store {
    var code := FailureCode(finding.Some?, invariantError);
    var name := code + ":" + def.id + Subject(finding);
    s.(limitations := s.limitations + [Limitation(
         Allocate("limitation:" + name, AsSet(LimitationIds(s.limitations))), true,
         if finding == None then [] else [finding.value.category], [], [def.id])],
       failures := s.failures + [Failure(
         Allocate("partial-failure:" + name, AsSet(FailureIds(s.failures))), OfRule(RuleRef(def.id, def.version)), code)])
  }

  // ----- what a rule may emit -----

  predicate Owned(def: RuleDef, rule: RuleRef, requirementIds: seq<string>) {
    rule == RuleRef(def.id, def.version) && Known(requirementIds, def.requirementIds)
  }

  /** New ids: none used before, none twice. */
  predicate NewIds(used: seq<string>, ids: seq<string>) {
    Distinct(ids) && forall id :: id in ids ==> id !in used
  }

  predicate LimitationsAccepted(s: Store, def: RuleDef, limitations: seq<Limitation>) {
    (forall l :: l in limitations ==> def.id in l.ruleIds) && NewIds(LimitationIds(s.limitations),
      LimitationIds(limitations))
  }

  predicate FactsAccepted(c: Context, s: Store, def: RuleDef, facts: seq<Fact>, limitations: seq<Limitation>) {
    && LimitationsAccepted(s, def, limitations)
    && NewIds(FactIds(s.facts), FactIds(facts))
    && forall f :: f in facts ==> Owned(def, f.rule, f.requirementIds) && Known(f.evidenceIds, EvidenceIds(c.evidence))
  }

  predicate FindingAccepted(c: Context, s: Store, def: RuleDef, limitations: seq<Limitation>, f: Candidate) {
    && Owned(def, f.rule, f.requirementIds)
    && Known(f.evidenceIds, EvidenceIds(c.evidence)) && Known(f.factIds, FactIds(s.facts))
    && Known(f.limitationIds, LimitationIds(s.limitations) + LimitationIds(limitations))
    && (f.confidence.Some? ==> Known(f.confidence.value, f.factIds))
  }

  predicate FindingsAccepted(c: Context, s: Store, def: RuleDef, findings: seq<Candidate>,
      limitations: seq<Limitation>) {
    && LimitationsAccepted(s, def, limitations)
    && NewIds(CandidateIds(s.candidates), CandidateIds(findings))
    && forall f :: f in findings ==> FindingAccepted(c, s, def, limitations, f)
  }

  predicate RecommendationAccepted(c: Context, s: Store, def: RuleDef, r: Recommendation) {
    && Owned(def, r.rule, r.requirementIds)
    && Known(r.evidenceIds, EvidenceIds(c.evidence)) && Known(r.findingIds, FindingIds(s.findings))
    && (if r.confidence == None then forall id :: id in r.findingIds ==> !Heuristic(s.findings, id)
        else (exists id :: id in r.findingIds && Heuristic(s.findings, id)) && Known(r.confidence.value,
          FactIds(s.facts)))
  }

  predicate RecommendationsAccepted(c: Context, s: Store, def: RuleDef, recommendations: seq<Recommendation>,
      limitations: seq<Limitation>) {
    && LimitationsAccepted(s, def, limitations)
    && NewIds(RecommendationIds(s.recommendations), RecommendationIds(recommendations))
    && forall r :: r in recommendations ==> RecommendationAccepted(c, s, def, r)
  }

  // ----- the stages -----

  function FactStep(c: Context, view: View, s: Store, rule: FactRule): Store {
    match rule.evaluate(view)
    case FactsThrew(invariantError) => Failed(s, rule.def, invariantError, None)
    case FactsEmitted(facts, limitations) =>
      if FactsAccepted(c, s, rule.def, facts, limitations) then s.(facts := s.facts + facts,
        limitations := s.limitations + limitations)
      else Failed(s, rule.def, true, None)
  }

  function FindingStep(c: Context, view: View, s: Store, rule: FindingRule): Store {
    match rule.evaluate(view)
    case FindingsThrew(invariantError) => Failed(s, rule.def, invariantError, None)
    case FindingsEmitted(findings, limitations) =>
      if FindingsAccepted(c, s, rule.def, findings, limitations) then s.(candidates := s.candidates + findings,
        limitations := s.limitations + limitations)
      else Failed(s, rule.def, true, None)
  }

  function PriorityStep(view: View, s: Store, prioritizer: Prioritizer, candidate: Candidate): Store {
    match prioritizer.prioritize(view, candidate)
    case PriorityThrew(invariantError) => Failed(s, prioritizer.def, invariantError, Some(candidate))
    case Prioritized(priority) =>
      if priority.rule == RuleRef(prioritizer.def.id, prioritizer.def.version) && candidate.id !in FindingIds(s.findings)
      then s.(findings := s.findings + [Finding(candidate, priority)])
      else Failed(s, prioritizer.def, true, Some(candidate))
  }

  function RecommendationStep(c: Context, view: View, s: Store, rule: RecommendationRule): Store {
    match rule.evaluate(view)
    case RecommendationsThrew(invariantError) => Failed(s, rule.def, invariantError, None)
    case RecommendationsEmitted(recommendations, limitations) =>
      if RecommendationsAccepted(c, s, rule.def, recommendations, limitations)
      then s.(recommendations := s.recommendations + recommendations, limitations := s.limitations + limitations)
      else Failed(s, rule.def, true, None)
  }

  function FactStage(c: Context, view: View, s: Store, rules: seq<FactRule>): Store
    decreases |rules|
  {
    if rules == [] then s else FactStage(c, view, FactStep(c, view, s, rules[0]), rules[1..])
  }

  function FindingStage(c: Context, view: View, s: Store, rules: seq<FindingRule>): Store
    decreases |rules|
  {
    if rules == [] then s else FindingStage(c, view, FindingStep(c, view, s, rules[0]), rules[1..])
  }

  function PriorityStage(view: View, s: Store, prioritizer: Prioritizer, candidates: seq<Candidate>): Store
    decreases |candidates|
  {
    if candidates == [] then s else PriorityStage(view, PriorityStep(view, s, prioritizer, candidates[0]), prioritizer,
      candidates[1..])
  }

  function RecommendationStage(c: Context, view: View, s: Store, rules: seq<RecommendationRule>): Store
    decreases |rules|
  {
    if rules == [] then s else RecommendationStage(c, view, RecommendationStep(c, view, s, rules[0]), rules[1..])
  }

  function ViewOf(s: Store): View {
    View(s.limitations, s.failures, s.facts, s.candidates, s.findings)
  }

  /** The last stage is shown the findings, and no candidates. */
  function LastView(s: Store): View {
    View(s.limitations, s.failures, s.facts, [], s.findings)
  }

  function StartOf(c: Context): Store {
    Store([], [], [], [], c.limitations, c.failures)
  }

  function SortedFactRules(rules: seq<FactRule>): seq<FactRule> {
    Sort(ByKey((r: FactRule) => r.def.id), rules)
  }

  function SortedFindingRules(rules: seq<FindingRule>): seq<FindingRule> {
    Sort(ByKey((r: FindingRule) => r.def.id), rules)
  }

  function SortedRecommendationRules(rules: seq<RecommendationRule>): seq<RecommendationRule> {
    Sort(ByKey((r: RecommendationRule) => r.def.id), rules)
  }

  function AfterFacts(c: Context, rules: RuleSet): Store {
    FactStage(c, ViewOf(StartOf(c)), StartOf(c), SortedFactRules(rules.factRules))
  }

  function AfterFindings(c: Context, rules: RuleSet): Store {
    FindingStage(c, ViewOf(AfterFacts(c, rules)), AfterFacts(c, rules), SortedFindingRules(rules.findingRules))
  }

  function AfterPriorities(c: Context, rules: RuleSet): Store {
    var s := AfterFindings(c, rules);
    PriorityStage(ViewOf(s), s, rules.prioritizer, s.candidates)
  }

  function AfterRecommendations(c: Context, rules: RuleSet): Store {
    RecommendationStage(c, LastView(AfterPriorities(c, rules)), AfterPriorities(c, rules),
      SortedRecommendationRules(rules.recommendationRules))
  }

  /** `None` is the configuration error that a bad rule set raises before any rule runs. */
  function Pipeline(c: Context, rules: RuleSet): Option<Store> {
    if RuleSetOk(rules) then Some(AfterRecommendations(c, rules)) else None
  }
}
