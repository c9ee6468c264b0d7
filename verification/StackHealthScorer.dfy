/** `stackHealthScorer.score` in the source's own form: a contribution list that every category pushes
    to, a band that a loop lowers, and advisory groups that are spliced as they merge. */
module StackHealthScorer {
  import opened Text
  import opened ReportContract
  import opened RulePipelineModel
  import opened AdvisoryGroups
  import opened RulePipelineSafety
  import opened StackHealthModel
  import opened StackHealthSafety
  import opened StackHealthReport
  import opened StackHealthScores
  import opened StackHealthMeaning

  /** The worst supported severity among the applicable checks. */
  method WorstBand(applicable: seq<Fact>) returns (band: Band)
    ensures band == LowerBand(applicable, NoRisk)
  {
    hide BandValue;
    band := NoRisk;
    for i := 0 to |applicable|
      invariant band == LowerBand(applicable[..i], NoRisk)
    {
      assert applicable[..i + 1][..i] == applicable[..i] && applicable[..i + 1][i] == applicable[i];
      var check := applicable[i].check;
      if check.Some? && check.value.severity.Some? {
        if BandValue(check.value.severity.value) < BandValue(band) { band := check.value.severity.value; }
      }
    }
    assert applicable[..|applicable|] == applicable;
  }

  /** How many advisories there are once those that share an identifier count as one. */
  method CountAdvisories(findings: seq<Finding>) returns (count: nat)
    ensures count == |Grouped(AdvisoryIds(findings))|
  {
    var groups: seq<Ids> := [];
    for i := 0 to |findings|
      invariant groups == Grouped(AdvisoryIds(findings[..i]))
    {
      ghost var before := AdvisoryIds(findings[..i]);
      assert findings[..i + 1][..i] == findings[..i] && findings[..i + 1][i] == findings[i];
      var advisory := findings[i].base.advisory;
      if advisory.Some? {
        var ids := {advisory.value.id} + set a | a in advisory.value.aliases;
        assert AdvisoryIds(findings[..i + 1]) == before + [ids];
        assert (before + [ids])[..|before|] == before;
        GroupedAreComponents(before);
        groups := MergeAdvisory(groups, ids);
      } else {
        assert AdvisoryIds(findings[..i + 1]) == before + [] == before;
      }
    }
    assert findings[..|findings|] == findings;
    count := |groups|;
  }

  /** `categoryScore`; `None` is the error thrown when nothing explains missing checks. */
  method RateCategory(s: Store, c: Category, pushed: seq<Contribution>) returns (score: Option<Score>,
      contributions: seq<Contribution>)
    ensures match CategoryScore(s, c)
      case Refused => score == None && contributions == pushed
      case Rated(r, added) => score == Some(r) && contributions == pushed + added
  {
    hide Grouped, AdvisoryIds, LowerBand, ReasonsFor, ChecksOf, CountState, EvidenceOf, BandFindings, Sort,
      FailedInspections;
    contributions := pushed;
    var checks := ChecksOf(s.facts, c);
    var counts := CountsOf(checks);
    if counts.unknown > 0 || checks == [] || FailedInspections(s) != [] {
      var reasons := ReasonsFor(s, c);
      if reasons == [] { return None, contributions; }
      assert pushed + [] == pushed;
      return Some(Insufficient(counts, FactIds(checks), reasons)), contributions;
    }
    var applicable := Applicable(checks);
    if applicable == [] {
      assert pushed + [] == pushed;
      return Some(NotApplicable(counts, FactIds(checks))), contributions;
    }
    if c == Dependencies || c == Security {
      var band := NoRisk;
      if c == Dependencies {
        if CountState(applicable, CheckFail) > 0 { band := MediumRisk; }
      } else {
        band := WorstBand(applicable);
      }
      var findings := BandFindings(s.findings, c);
      var id := PREFIX + Name(c) + "-band";
      var advisories := CountAdvisories(findings);
      contributions := contributions
        + [Contribution(id, c, RiskBand, 100.0 - BandValue(band), FactIds(applicable), FindingIds(findings),
          EvidenceOf(applicable))];
      return Some(Available(counts.(unknown := 0), FactIds(checks), BandValue(band), Some(band), if c == Security then Some(advisories) else None, [id])), contributions;
    }
    score, contributions := RateReadiness(c, checks, applicable, pushed);
  }

  method RateReadiness(c: Category, checks: seq<Fact>, applicable: seq<Fact>,
      pushed: seq<Contribution>) returns (score: Option<Score>, contributions: seq<Contribution>)
    requires applicable != []
    ensures score == Some(ReadinessScore(c, checks, applicable).score)
    ensures contributions == pushed + ReadinessScore(c, checks, applicable).contributions
  {
    hide CountState, EvidenceOf, Share;
    var weight := 100.0 / |applicable| as real;
    var ids: seq<string> := [];
    contributions := pushed;
    ghost var all := ReadinessContributions(c, applicable, weight);
    for i := 0 to |applicable|
      invariant contributions == pushed + all[..i]
      invariant ids == ContributionIds(all)[..i]
    {
      var id := PREFIX + applicable[i].id;
      ids := ids + [id];
      contributions := contributions + [ReadinessContribution(c, applicable[i], weight)];
      assert all[..i + 1] == all[..i] + [all[i]];
      assert ContributionIds(all)[..i + 1] == ContributionIds(all)[..i] + [ContributionIds(all)[i]];
    }
    assert all[..|all|] == all && ContributionIds(all)[..|all|] == ContributionIds(all);
    score := Some(Available(CountsOf(checks).(unknown := 0), FactIds(checks),
      Share(CountState(checks, CheckPass), |applicable|), None, None, ids));
  }

  /** `score`: all categories in order, then the overall score. What it returns is internally exact
      and passes the report's cross-checks. */
  method ScoreStackHealth(s: Store) returns (scores: Option<Scores>)
    ensures scores == StackHealth(s)
    ensures scores.Some? && scores.value.overall.Available? ==>
      && 0.0 <= scores.value.overall.value <= 100.0
      && (scores.value.categories.dependencies.Available? ==> scores.value.overall.value <= scores.value.categories.dependencies.value)
      && (scores.value.categories.security.Available? ==> scores.value.overall.value <= scores.value.categories.security.value)
    ensures scores.Some? ==> ScoresSay(s, scores.value)
    ensures forall c :: scores.Some? && Scorable(c, s) ==> ScoresAgree(ReportOf(c, s, scores.value))
  {
    hide CategoryScore, OverallScore, ScoresAgree, Scorable, ScoresSay;
    var contributions: seq<Contribution> := [];
    var d, e, m, t, o: Option<Score>;
    d, contributions := RateCategory(s, Dependencies, contributions);
    assert [] + Contributed(s, Dependencies) == Contributed(s, Dependencies);
    assert contributions == Contributed(s, Dependencies);
    e, contributions := RateCategory(s, Security, contributions);
    m, contributions := RateCategory(s, Maintainability, contributions);
    t, contributions := RateCategory(s, Testing, contributions);
    o, contributions := RateCategory(s, Tooling, contributions);
    if d == None || e == None || m == None || t == None || o == None { return None; }
    var categories := Categories(d.value, e.value, m.value, t.value, o.value);
    var overall := OverallScore(s, categories);
    if overall.Refused? { return None; }
    contributions := contributions + overall.contributions;
    scores := Some(Scores(overall.score, categories, contributions));
    assert scores == StackHealth(s);
    ScoresInPlainWords(s);
    if overall.score.Available? { OverallIsCapped(s); }
    forall c | Scorable(c, s) ensures ScoresAgree(ReportOf(c, s, scores.value)) { ScoresOkWithAll(c, s); }
  }
}
