/** The report (`contracts/src/analysis-report.ts`, schema version 2): its entities as far as
    references, uniqueness and counts go, and `validateReport`, the independent checker that walks
    the collections with `seen` sets and counters. */
module ReportContract {
  import opened Text

  datatype Category = Dependencies | Security | Maintainability | Testing | Tooling
  datatype CheckState = CheckPass | CheckFail | CheckUnknown | CheckNotApplicable
  datatype Band = NoRisk | LowRisk | MediumRisk | HighRisk | CriticalRisk

  datatype RuleRef = RuleRef(id: string, version: string)
  datatype Source = Source(id: string, unavailable: bool)
  datatype Evidence = Evidence(id: string, external: Option<string>)

  datatype Check = Check(
    key: string, category: Category, state: CheckState, severity: Option<Band>, packageName: Option<string>, limitationIds: seq<string>)
  datatype Fact = Fact(id: string, rule: RuleRef, requirementIds: seq<string>, evidenceIds: seq<string>,
    check: Option<Check>)

  datatype Limitation = Limitation(id: string, partialFailure: bool, categories: seq<Category>, sourceIds: seq<string>,
    ruleIds: seq<string>)

  datatype Advisory = Advisory(id: string, aliases: seq<string>)

  /** A finding before its priority; a heuristic one carries the facts of its confidence. */
  datatype Candidate = Candidate(
    id: string, category: Category, rule: RuleRef, requirementIds: seq<string>, evidenceIds: seq<string>,
    factIds: seq<string>, limitationIds: seq<string>, confidence: Option<seq<string>>, advisory: Option<Advisory>)

  /** The evidence of each factor. */
  datatype Priority = Priority(rule: RuleRef, factors: seq<seq<string>>)
  datatype Finding = Finding(base: Candidate, priority: Priority)

  datatype Recommendation = Recommendation(
    id: string, rule: RuleRef, requirementIds: seq<string>, findingIds: seq<string>, evidenceIds: seq<string>, confidence: Option<seq<string>>)

  datatype FailureScope = OfSource(id: string) | OfRule(rule: RuleRef) | OfAcquisition
  datatype Failure = Failure(id: string, scope: FailureScope, code: string)

  datatype ContributionKind = RiskBand | ReadinessCheck | OverallCeiling
  datatype Contribution = Contribution(
    id: string, category: Category, kind: ContributionKind, points: real, factIds: seq<string>, findingIds: seq<string>, evidenceIds: seq<string>)

  datatype Counts = Counts(passed: nat, failed: nat, unknown: nat, notApplicable: nat)

  datatype Score =
    | Available(counts: Counts, checkIds: seq<string>, value: real, band: Option<Band>, advisories: Option<nat>,
      contributionIds: seq<string>)
    | Insufficient(counts: Counts, checkIds: seq<string>, limitationIds: seq<string>)
    | NotApplicable(counts: Counts, checkIds: seq<string>)

  datatype Categories = Categories(dependencies: Score, security: Score, maintainability: Score, testing: Score,
    tooling: Score) {
    function Of(category: Category): Score {
      match category
      case Dependencies => dependencies
      case Security => security
      case Maintainability => maintainability
      case Testing => testing
      case Tooling => tooling
    }
  }

  datatype Scores = Scores(overall: Score, categories: Categories, contributions: seq<Contribution>)

  datatype Report = Report(
    sources: seq<Source>, evidence: seq<Evidence>, facts: seq<Fact>, findings: seq<Finding>,
    recommendations: seq<Recommendation>, limitations: seq<Limitation>, failures: seq<Failure>, scores: Scores)

  // ----- ids -----

  function SourceIds(items: seq<Source>): seq<string> { Mapped(items, (x: Source) => x.id) }
  function EvidenceIds(items: seq<Evidence>): seq<string> { Mapped(items, (x: Evidence) => x.id) }
  function FactIds(items: seq<Fact>): seq<string> { Mapped(items, (x: Fact) => x.id) }
  function FindingIds(items: seq<Finding>): seq<string> { Mapped(items, (x: Finding) => x.base.id) }
  function CandidateIds(items: seq<Candidate>): seq<string> { Mapped(items, (x: Candidate) => x.id) }
  function RecommendationIds(items: seq<Recommendation>): seq<string> { Mapped(items, (x: Recommendation) => x.id) }
  function LimitationIds(items: seq<Limitation>): seq<string> { Mapped(items, (x: Limitation) => x.id) }
  function FailureIds(items: seq<Failure>): seq<string> { Mapped(items, (x: Failure) => x.id) }
  function ContributionIds(items: seq<Contribution>): seq<string> { Mapped(items, (x: Contribution) => x.id) }

  predicate Distinct(ids: seq<string>) {
    forall i, j :: 0 <= i < j < |ids| ==> ids[i] != ids[j]
  }

  predicate Known(refs: seq<string>, ids: seq<string>) {
    forall r :: r in refs ==> r in ids
  }

  // ----- what the checker demands -----

  predicate EvidenceOk(e: Evidence, sources: seq<Source>) {
    e.external.Some? ==> exists s :: s in sources && s.id == e.external.value && !s.unavailable
  }

  predicate FindingOk(f: Finding, facts: seq<string>, evidence: seq<string>, limitations: seq<string>) {
    && Known(f.base.evidenceIds, evidence) && Known(f.base.factIds, facts) && Known(f.base.limitationIds, limitations)
    && (forall k :: 0 <= k < |f.priority.factors| ==> Known(f.priority.factors[k], evidence))
    && (f.base.confidence.Some? ==> Known(f.base.confidence.value, facts) && Known(f.base.confidence.value, f.base.factIds))
  }

  function FindFinding(findings: seq<Finding>, id: string): (r: Option<Finding>)
    ensures r.Some? <==> id in FindingIds(findings)
    ensures r.Some? ==> r.value in findings && r.value.base.id == id
  {
    if findings == [] then None
    else if findings[0].base.id == id then
      assert FindingIds(findings)[0] == id;
      Some(findings[0])
    else
      assert FindingIds(findings) == [findings[0].base.id] + FindingIds(findings[1..]);
      FindFinding(findings[1..], id)
  }

  predicate Heuristic(findings: seq<Finding>, id: string) {
    var f := FindFinding(findings, id);
    f.Some? && f.value.base.confidence.Some?
  }

  /** A fact recommendation rests on no heuristic finding, a heuristic one on at least one. */
  predicate BasisOk(r: Recommendation, findings: seq<Finding>) {
    if r.confidence == None then forall id :: id in r.findingIds ==> !Heuristic(findings, id)
    else (exists id :: id in r.findingIds && Heuristic(findings, id)) || (forall id :: id in r.findingIds ==> id !in FindingIds(findings))
  }

  predicate RecommendationOk(r: Recommendation, findings: seq<Finding>, facts: seq<string>, evidence: seq<string>) {
    && Known(r.findingIds, FindingIds(findings)) && BasisOk(r, findings) && Known(r.evidenceIds, evidence)
    && (r.confidence.Some? ==> Known(r.confidence.value, facts))
  }

  predicate ContributionOk(c: Contribution, facts: seq<string>, findings: seq<string>, evidence: seq<string>) {
    Known(c.evidenceIds, evidence) && Known(c.findingIds, findings) && Known(c.factIds, facts)
  }

  function FindFact(facts: seq<Fact>, id: string): (r: Option<Fact>)
    ensures r.Some? ==> r.value in facts && r.value.id == id
    ensures r.None? ==> id !in FactIds(facts)
  {
    if facts == [] then None
    else if facts[0].id == id then Some(facts[0])
    else
      assert FactIds(facts) == [facts[0].id] + FactIds(facts[1..]);
      FindFact(facts[1..], id)
  }

  function CheckOf(facts: seq<Fact>, id: string): Option<Check> {
    var fact := FindFact(facts, id);
    if fact.Some? then fact.value.check else None
  }

  predicate CheckFits(facts: seq<Fact>, category: Option<Category>, id: string) {
    CheckOf(facts, id).Some? && (category.Some? ==> CheckOf(facts, id).value.category == category.value)
  }

  function Count(counts: Counts, state: CheckState): Counts {
    match state
    case CheckPass => counts.(passed := counts.passed + 1)
    case CheckFail => counts.(failed := counts.failed + 1)
    case CheckUnknown => counts.(unknown := counts.unknown + 1)
    case CheckNotApplicable => counts.(notApplicable := counts.notApplicable + 1)
  }

  function Tally(facts: seq<Fact>, ids: seq<string>): Counts {
    if ids == [] then Counts(0, 0, 0, 0)
    else
      var before := Tally(facts, ids[..|ids| - 1]);
      var check := CheckOf(facts, ids[|ids| - 1]);
      if check == None then before else Count(before, check.value.state)
  }

  predicate ScoreOk(score: Score, category: Option<Category>, facts: seq<Fact>, contributions: seq<string>,
      limitations: seq<string>) {
    && Distinct(score.checkIds)
    && (forall id :: id in score.checkIds ==> CheckFits(facts, category, id))
    && score.counts == Tally(facts, score.checkIds)
    && (score.NotApplicable? ==> score.counts.passed + score.counts.failed + score.counts.unknown == 0)
    && (score.Available? ==> Known(score.contributionIds, contributions))
    && (score.Insufficient? ==> Known(score.limitationIds, limitations))
  }

  predicate FailureOk(f: Failure, sources: seq<string>) {
    f.scope.OfSource? ==> f.scope.id in sources
  }

  predicate CheckLimitationsOk(f: Fact, limitations: seq<string>) {
    f.check.Some? ==> Known(f.check.value.limitationIds, limitations)
  }

  predicate Unique(r: Report) {
    && Distinct(SourceIds(r.sources)) && Distinct(EvidenceIds(r.evidence)) && Distinct(FactIds(r.facts))
    && Distinct(FindingIds(r.findings)) && Distinct(RecommendationIds(r.recommendations))
    && Distinct(LimitationIds(r.limitations)) && Distinct(FailureIds(r.failures)) && Distinct(ContributionIds(r.scores.contributions))
  }

  predicate References(r: Report) {
    var facts, evidence, limitations := FactIds(r.facts), EvidenceIds(r.evidence), LimitationIds(r.limitations);
    && (forall e :: e in r.evidence ==> EvidenceOk(e, r.sources))
    && (forall f :: f in r.facts ==> Known(f.evidenceIds, evidence))
    && (forall f :: f in r.findings ==> FindingOk(f, facts, evidence, limitations))
    && (forall x :: x in r.recommendations ==> RecommendationOk(x, r.findings, facts, evidence))
    && (forall c :: c in r.scores.contributions ==> ContributionOk(c, facts, FindingIds(r.findings), evidence))
    && (forall l :: l in r.limitations ==> Known(l.sourceIds, SourceIds(r.sources)))
    && (forall f :: f in r.failures ==> FailureOk(f, SourceIds(r.sources)))
    && (forall f :: f in r.facts ==> CheckLimitationsOk(f, limitations))
  }

  predicate ScoresAgree(r: Report) {
    var contributions, limitations := ContributionIds(r.scores.contributions), LimitationIds(r.limitations);
    && ScoreOk(r.scores.overall, None, r.facts, contributions, limitations)
    && forall c: Category :: ScoreOk(r.scores.categories.Of(c), Some(c), r.facts, contributions, limitations)
  }

  predicate Accepts(r: Report) {
    Unique(r) && References(r) && ScoresAgree(r)
  }

  // ----- the checker itself -----

  method ValidateUniqueIds(ids: seq<string>) returns (issues: nat)
    ensures issues == 0 <==> Distinct(ids)
  {
    issues := 0;
    var seen: set<string> := {};
    var i := 0;
    while i < |ids|
      invariant 0 <= i <= |ids|
      invariant seen == set k | 0 <= k < i :: ids[k]
      invariant issues == 0 <==> Distinct(ids[..i])
    {
      assert ids[..i + 1] == ids[..i] + [ids[i]];
      if ids[i] in seen {
        issues := issues + 1;
        var k :| 0 <= k < i && ids[k] == ids[i];
        assert ids[..i + 1][k] == ids[..i + 1][i];
      }
      seen := seen + {ids[i]};
      i := i + 1;
    }
    assert ids[..i] == ids;
  }

  method CheckReferences(refs: seq<string>, ids: set<string>, known: seq<string>) returns (issues: nat)
    requires ids == set k | k in known
    ensures issues == 0 <==> Known(refs, known)
  {
    issues := 0;
    var i := 0;
    while i < |refs|
      invariant 0 <= i <= |refs|
      invariant issues == 0 <==> forall k :: 0 <= k < i ==> refs[k] in known
    {
      if refs[i] !in ids { issues := issues + 1; }
      i := i + 1;
    }
  }

  method TallyChecks(ids: seq<string>, category: Option<Category>, facts: seq<Fact>) returns (issues: nat,
      actual: Counts)
    ensures actual == Tally(facts, ids)
    ensures issues == 0 <==> Distinct(ids) && forall id :: id in ids ==> CheckFits(facts, category, id)
  {
    hide FindFact, Count;
    issues := 0;
    var seenChecks: set<string> := {};
    actual := Counts(0, 0, 0, 0);
    for i := 0 to |ids|
      invariant seenChecks == set k | 0 <= k < i :: ids[k]
      invariant actual == Tally(facts, ids[..i])
      invariant issues == 0 <==> Distinct(ids[..i]) && forall k :: 0 <= k < i ==> CheckFits(facts, category, ids[k])
    {
      ghost var before, now := ids[..i], ids[..i + 1];
      assert now == before + [ids[i]] && now[..|now| - 1] == before && now[|now| - 1] == ids[i];
      if ids[i] in seenChecks {
        issues := issues + 1;
        var k :| 0 <= k < i && ids[k] == ids[i];
        assert now[k] == now[i];
      }
      seenChecks := seenChecks + {ids[i]};
      var fact := FindFact(facts, ids[i]);
      if fact == None || fact.value.check == None {
        issues := issues + 1;
      } else {
        actual := Count(actual, fact.value.check.value.state);
        if category.Some? && fact.value.check.value.category != category.value { issues := issues + 1; }
      }
    }
    assert ids[..|ids|] == ids;
  }

  method ValidateScore(score: Score, category: Option<Category>, facts: seq<Fact>, contributions: seq<string>,
      limitations: seq<string>) returns (issues: nat)
    ensures issues == 0 <==> ScoreOk(score, category, facts, contributions, limitations)
  {
    hide Tally, CheckOf, Distinct;
    var actual;
    issues, actual := TallyChecks(score.checkIds, category, facts);
    if actual.passed != score.counts.passed { issues := issues + 1; }
    if actual.failed != score.counts.failed { issues := issues + 1; }
    if actual.unknown != score.counts.unknown { issues := issues + 1; }
    if actual.notApplicable != score.counts.notApplicable { issues := issues + 1; }
    if score.NotApplicable? && actual.passed + actual.failed + actual.unknown > 0 { issues := issues + 1; }
    var more := 0;
    if score.Available? {
      more := CheckReferences(score.contributionIds, (set k | k in contributions), contributions);
    } else if score.Insufficient? {
      more := CheckReferences(score.limitationIds, (set k | k in limitations), limitations);
    }
    issues := issues + more;
  }

  method ValidateEvidence(evidence: seq<Evidence>, sources: seq<Source>) returns (issues: nat)
    ensures issues == 0 <==> forall e :: e in evidence ==> EvidenceOk(e, sources)
  {
    issues := 0;
    for i := 0 to |evidence|
      invariant issues == 0 <==> forall k :: 0 <= k < i ==> EvidenceOk(evidence[k], sources)
    {
      if evidence[i].external.Some? {
        if !(exists s :: s in sources && s.id == evidence[i].external.value && !s.unavailable) { issues := issues + 1; }
      }
    }
  }

  method ValidateFacts(facts: seq<Fact>, evidence: seq<string>, limitations: seq<string>) returns (issues: nat)
    ensures issues == 0 <==> forall f :: f in facts ==> Known(f.evidenceIds, evidence) && CheckLimitationsOk(f,
      limitations)
  {
    issues := 0;
    for i := 0 to |facts|
      invariant issues == 0 <==> forall k :: 0 <= k < i ==> Known(facts[k].evidenceIds, evidence) && CheckLimitationsOk(facts[k], limitations)
    {
      var missing := CheckReferences(facts[i].evidenceIds, (set k | k in evidence), evidence);
      issues := issues + missing;
      if facts[i].check.Some? {
        missing := CheckReferences(facts[i].check.value.limitationIds, (set k | k in limitations), limitations);
        issues := issues + missing;
      }
    }
  }

  method ValidateFinding(f: Finding, facts: seq<string>, evidence: seq<string>,
      limitations: seq<string>) returns (issues: nat)
    ensures issues == 0 <==> FindingOk(f, facts, evidence, limitations)
  {
    var unknownEvidence := CheckReferences(f.base.evidenceIds, (set k | k in evidence), evidence);
    var unknownFacts := CheckReferences(f.base.factIds, (set k | k in facts), facts);
    var unknownLimitations := CheckReferences(f.base.limitationIds, (set k | k in limitations), limitations);
    issues := unknownEvidence + unknownFacts + unknownLimitations;
    ghost var plain := issues;
    for i := 0 to |f.priority.factors|
      invariant issues == 0 <==> plain == 0 && forall k :: 0 <= k < i ==> Known(f.priority.factors[k], evidence)
    {
      var missing := CheckReferences(f.priority.factors[i], (set k | k in evidence), evidence);
      issues := issues + missing;
    }
    if f.base.confidence.Some? {
      var refs := f.base.confidence.value;
      ghost var before := issues;
      for i := 0 to |refs|
        invariant issues == 0 <==> before == 0 && forall k :: 0 <= k < i ==> refs[k] in facts && refs[k] in f.base.factIds
      {
        if refs[i] !in facts { issues := issues + 1; }
        else if refs[i] !in f.base.factIds { issues := issues + 1; }
      }
    }
  }

  method ValidateFindings(findings: seq<Finding>, facts: seq<string>, evidence: seq<string>,
      limitations: seq<string>) returns (issues: nat)
    ensures issues == 0 <==> forall f :: f in findings ==> FindingOk(f, facts, evidence, limitations)
  {
    issues := 0;
    for i := 0 to |findings|
      invariant issues == 0 <==> forall k :: 0 <= k < i ==> FindingOk(findings[k], facts, evidence, limitations)
    {
      var more := ValidateFinding(findings[i], facts, evidence, limitations);
      issues := issues + more;
    }
  }

  lemma KnownByIndex(refs: seq<string>, ids: seq<string>)
    ensures Known(refs, ids) <==> forall k :: 0 <= k < |refs| ==> refs[k] in ids
  {
  }

  method ValidateRecommendation(r: Recommendation, findings: seq<Finding>, facts: seq<string>,
      evidence: seq<string>) returns (issues: nat)
    ensures issues == 0 <==> RecommendationOk(r, findings, facts, evidence)
  {
    hide FindFinding, FindingIds, Known;
    KnownByIndex(r.findingIds, FindingIds(findings));
    issues := 0;
    var referenced: seq<Finding> := [];
    for i := 0 to |r.findingIds|
      invariant issues == 0 <==> forall k :: 0 <= k < i ==> r.findingIds[k] in FindingIds(findings)
      invariant referenced == [] <==> forall k :: 0 <= k < i ==> r.findingIds[k] !in FindingIds(findings)
      invariant (exists f :: f in referenced && f.base.confidence.Some?) <==> exists k :: 0 <= k < i && Heuristic(findings, r.findingIds[k])
    {
      var finding := FindFinding(findings, r.findingIds[i]);
      if finding == None { issues := issues + 1; } else { referenced := referenced + [finding.value]; }
    }
    if r.confidence == None && (exists f :: f in referenced && f.base.confidence.Some?) { issues := issues + 1; }
    if r.confidence.Some? && referenced != [] && !(exists f :: f in referenced && f.base.confidence.Some?) { issues := issues + 1; }
    var missing := CheckReferences(r.evidenceIds, (set k | k in evidence), evidence);
    issues := issues + missing;
    if r.confidence.Some? {
      missing := CheckReferences(r.confidence.value, (set k | k in facts), facts);
      issues := issues + missing;
    }
  }

  method ValidateRecommendations(items: seq<Recommendation>, findings: seq<Finding>, facts: seq<string>,
      evidence: seq<string>) returns (issues: nat)
    ensures issues == 0 <==> forall r :: r in items ==> RecommendationOk(r, findings, facts, evidence)
  {
    issues := 0;
    for i := 0 to |items|
      invariant issues == 0 <==> forall k :: 0 <= k < i ==> RecommendationOk(items[k], findings, facts, evidence)
    {
      var more := ValidateRecommendation(items[i], findings, facts, evidence);
      issues := issues + more;
    }
  }

  method ValidateContributions(items: seq<Contribution>, facts: seq<string>, findings: seq<string>,
      evidence: seq<string>) returns (issues: nat)
    ensures issues == 0 <==> forall c :: c in items ==> ContributionOk(c, facts, findings, evidence)
  {
    issues := 0;
    for i := 0 to |items|
      invariant issues == 0 <==> forall k :: 0 <= k < i ==> ContributionOk(items[k], facts, findings, evidence)
    {
      var a := CheckReferences(items[i].evidenceIds, (set k | k in evidence), evidence);
      var b := CheckReferences(items[i].findingIds, (set k | k in findings), findings);
      var c := CheckReferences(items[i].factIds, (set k | k in facts), facts);
      issues := issues + a + b + c;
    }
  }

  method ValidateSourceReferences(limitations: seq<Limitation>, failures: seq<Failure>,
      sources: seq<string>) returns (issues: nat)
    ensures issues == 0 <==> (forall l :: l in limitations ==> Known(l.sourceIds, sources)) && (forall f :: f in failures ==> FailureOk(f, sources))
  {
    issues := 0;
    for i := 0 to |limitations|
      invariant issues == 0 <==> forall k :: 0 <= k < i ==> Known(limitations[k].sourceIds, sources)
    {
      var missing := CheckReferences(limitations[i].sourceIds, (set k | k in sources), sources);
      issues := issues + missing;
    }
    ghost var before := issues;
    for i := 0 to |failures|
      invariant issues == 0 <==> before == 0 && forall k :: 0 <= k < i ==> FailureOk(failures[k], sources)
    {
      if failures[i].scope.OfSource? && failures[i].scope.id !in sources { issues := issues + 1; }
    }
  }

  predicate Lists(order: seq<Category>, c: Category) {
    exists k :: 0 <= k < |order| && order[k] == c
  }

  method ValidateScores(r: Report) returns (issues: nat)
    ensures issues == 0 <==> ScoresAgree(r)
  {
    hide ScoreOk;
    var contributions, limitations := ContributionIds(r.scores.contributions), LimitationIds(r.limitations);
    issues := ValidateScore(r.scores.overall, None, r.facts, contributions, limitations);
    var order := [Dependencies, Security, Maintainability, Testing, Tooling];
    forall c: Category ensures Lists(order, c) {
      match c {
        case Dependencies => assert order[0] == c;
        case Security => assert order[1] == c;
        case Maintainability => assert order[2] == c;
        case Testing => assert order[3] == c;
        case Tooling => assert order[4] == c;
      }
    }
    for i := 0 to |order|
      invariant issues == 0 <==>
        ScoreOk(r.scores.overall, None, r.facts, contributions, limitations)
        && forall k :: 0 <= k < i ==> ScoreOk(r.scores.categories.Of(order[k]), Some(order[k]), r.facts, contributions,
          limitations)
    {
      var more := ValidateScore(r.scores.categories.Of(order[i]), Some(order[i]), r.facts, contributions, limitations);
      issues := issues + more;
    }
    forall c: Category | issues == 0 ensures ScoreOk(r.scores.categories.Of(c), Some(c), r.facts, contributions,
      limitations) {
      assert Lists(order, c);
    }
  }

  /** `validateReport`: no issue is added exactly when the report is unique, closed and adds up. */
  method ValidateReport(r: Report) returns (issues: nat)
    ensures issues == 0 <==> Accepts(r)
  {
    hide EvidenceOk, FindingOk, RecommendationOk, ContributionOk, FailureOk, CheckLimitationsOk, ScoresAgree, Known,
      Distinct;
    var facts, evidence, findings := FactIds(r.facts), EvidenceIds(r.evidence), FindingIds(r.findings);
    var limitations, sources := LimitationIds(r.limitations), SourceIds(r.sources);
    var a := ValidateUniqueIds(sources);
    var b := ValidateUniqueIds(evidence);
    var c := ValidateUniqueIds(facts);
    var d := ValidateUniqueIds(findings);
    var e := ValidateUniqueIds(RecommendationIds(r.recommendations));
    var f := ValidateUniqueIds(limitations);
    var g := ValidateUniqueIds(FailureIds(r.failures));
    var h := ValidateUniqueIds(ContributionIds(r.scores.contributions));
    issues := a + b + c + d + e + f + g + h;
    a := ValidateEvidence(r.evidence, r.sources);
    b := ValidateFacts(r.facts, evidence, limitations);
    c := ValidateFindings(r.findings, facts, evidence, limitations);
    d := ValidateRecommendations(r.recommendations, r.findings, facts, evidence);
    e := ValidateContributions(r.scores.contributions, facts, findings, evidence);
    f := ValidateSourceReferences(r.limitations, r.failures, sources);
    g := ValidateScores(r);
    issues := issues + a + b + c + d + e + f + g;
  }
}
