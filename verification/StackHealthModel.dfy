/** `stackHealthScorer` in exact arithmetic: category scores from inspection checks, and the overall
    score as the mean of the applicable categories capped by dependencies and security. */
module StackHealthModel {
  import opened Text
  import opened ReportContract
  import opened RulePipelineModel
  import opened AdvisoryGroups

  const ORDER: seq<Category> := [Dependencies, Security, Maintainability, Testing, Tooling]
  const INSPECTION_RULE := "JS-INSPECTION-018"
  const PREFIX := "score-v3-"
  const CEILING := "overall-ceiling"

  function Name(c: Category): string {
    match c
    case Dependencies => "dependencies"
    case Security => "security"
    case Maintainability => "maintainability"
    case Testing => "testing"
    case Tooling => "tooling"
  }

  function BandValue(b: Band): real {
    match b
    case NoRisk => 100.0
    case LowRisk => 90.0
    case MediumRisk => 70.0
    case HighRisk => 40.0
    case CriticalRisk => 0.0
  }

  // ----- checks and counts -----

  predicate IsCheck(f: Fact, c: Category) {
    f.check.Some? && f.check.value.category == c
  }

  function OfCategory(facts: seq<Fact>, c: Category): (r: seq<Fact>)
    ensures forall f :: f in r <==> f in facts && IsCheck(f, c)
  {
    if facts == [] then []
    else
      assert facts == [facts[0]] + facts[1..];
      (if IsCheck(facts[0], c) then [facts[0]] else []) + OfCategory(facts[1..], c)
  }

  function ChecksOf(facts: seq<Fact>, c: Category): seq<Fact> {
    Sort(ByKey((f: Fact) => f.id), OfCategory(facts, c))
  }

  predicate InState(f: Fact, state: CheckState) {
    f.check.Some? && f.check.value.state == state
  }

  function CountState(facts: seq<Fact>, state: CheckState): (n: nat)
    ensures n <= |facts|
  {
    if facts == [] then 0 else CountState(facts[..|facts| - 1], state) + (if InState(facts[|facts| - 1], state) then 1 else 0)
  }

  function CountsOf(facts: seq<Fact>): Counts {
    Counts(CountState(facts, CheckPass), CountState(facts, CheckFail), CountState(facts, CheckUnknown),
      CountState(facts, CheckNotApplicable))
  }

  /** `facts.filter(fact => fact.details.state !== "not_applicable")`. */
  function Applicable(facts: seq<Fact>): (r: seq<Fact>)
    ensures forall f :: f in r <==> f in facts && !InState(f, CheckNotApplicable)
  {
    if facts == [] then []
    else
      assert facts == facts[..|facts| - 1] + [facts[|facts| - 1]];
      Applicable(facts[..|facts| - 1]) + (if InState(facts[|facts| - 1], CheckNotApplicable) then [] else [facts[|facts| - 1]])
  }

  // ----- limitations of an unknown category -----

  function Flatten(lists: seq<seq<string>>): (r: seq<string>)
    ensures forall x :: x in r <==> exists i :: 0 <= i < |lists| && x in lists[i]
  {
    if lists == [] then []
    else
      assert forall x :: (exists i :: 0 <= i < |lists| && x in lists[i]) <==> x in lists[0] || exists i :: 0 <= i < |lists[1..]| && x in lists[1..][i] by {
        forall x ensures (exists i :: 0 <= i < |lists| && x in lists[i]) <==> x in lists[0] || exists i :: 0 <= i < |lists[1..]| && x in lists[1..][i] {
          if exists i :: 0 <= i < |lists| && x in lists[i] {
            var i :| 0 <= i < |lists| && x in lists[i];
            if i > 0 { assert lists[1..][i - 1] == lists[i]; }
          }
        }
      }
      lists[0] + Flatten(lists[1..])
  }

  /** `[...new Set(items)]`. */
  function Unrepeated(items: seq<string>): (r: seq<string>)
    ensures forall x :: x in r <==> x in items
  {
    if items == [] then []
    else
      var last := items[|items| - 1];
      assert items == items[..|items| - 1] + [last];
      var before := Unrepeated(items[..|items| - 1]);
      if last in before then before else before + [last]
  }

  function FailedInspections(s: Store): seq<Limitation> {
    Filter(s.limitations, (l: Limitation) => l.partialFailure && INSPECTION_RULE in l.ruleIds)
  }

  function UnknownLimitations(checks: seq<Fact>): seq<string> {
    Flatten(seq(|checks|, i requires 0 <= i < |checks| => if InState(checks[i], CheckUnknown) then checks[i].check.value.limitationIds else []))
  }

  function Related(s: Store, c: Category): seq<Limitation> {
    Filter(s.limitations, (l: Limitation) => c in l.categories || l.partialFailure)
  }

  function ReasonsFor(s: Store, c: Category): seq<string> {
    var checks := ChecksOf(s.facts, c);
    Sort(ByKey((id: string) => id), Unrepeated(
      UnknownLimitations(checks) + LimitationIds(FailedInspections(s)) + (if checks == [] then LimitationIds(Related(s, c)) else [])))
  }

  // ----- one category -----

  function LowerBand(checks: seq<Fact>, band: Band): Band {
    if checks == [] then band
    else
      var before := LowerBand(checks[..|checks| - 1], band);
      var check := checks[|checks| - 1].check;
      if check.Some? && check.value.severity.Some? && BandValue(check.value.severity.value) < BandValue(before)
      then check.value.severity.value else before
  }

  function BandOf(c: Category, applicable: seq<Fact>): Band {
    if c == Dependencies then if CountState(applicable, CheckFail) > 0 then MediumRisk else NoRisk
    else LowerBand(applicable, NoRisk)
  }

  function EvidenceOf(facts: seq<Fact>): seq<string> {
    Unrepeated(Flatten(seq(|facts|, i requires 0 <= i < |facts| => facts[i].evidenceIds)))
  }

  predicate BandFinding(f: Finding, c: Category) {
    f.base.category == c && f.base.confidence == None && f.base.rule.id == (if c == Dependencies then "JS-NPM-007" else "JS-VULN-011")
  }

  function BandFindings(findings: seq<Finding>, c: Category): (r: seq<Finding>)
    ensures forall f :: f in r ==> f in findings
  {
    if findings == [] then []
    else (if BandFinding(findings[0], c) then [findings[0]] else []) + BandFindings(findings[1..], c)
  }

  /** The identifiers of each advisory finding. */
  function AdvisoryIds(findings: seq<Finding>): (r: seq<Ids>)
    ensures {} !in r
  {
    if findings == [] then []
    else
      var last := findings[|findings| - 1].base.advisory;
      AdvisoryIds(findings[..|findings| - 1])
        + (if last == None then [] else
             var ids := {last.value.id} + set a | a in last.value.aliases;
             assert last.value.id in ids;
             [ids])
  }

  function ReadinessContribution(c: Category, f: Fact, weight: real): Contribution {
    Contribution(PREFIX + f.id, c, ReadinessCheck, if InState(f, CheckPass) then 0.0 else weight, [f.id], [],
      EvidenceOf([f]))
  }

  function ReadinessContributions(c: Category, applicable: seq<Fact>, weight: real): (r: seq<Contribution>)
    ensures |r| == |applicable| && forall i :: 0 <= i < |r| ==> r[i] == ReadinessContribution(c, applicable[i], weight)
  {
    seq(|applicable|, i requires 0 <= i < |applicable| => ReadinessContribution(c, applicable[i], weight))
  }

  datatype Rated = Rated(score: Score, contributions: seq<Contribution>) | Refused

  predicate UsesBand(c: Category) {
    c == Dependencies || c == Security
  }

  predicate Unrated(s: Store, checks: seq<Fact>) {
    CountState(checks, CheckUnknown) > 0 || checks == [] || FailedInspections(s) != []
  }

  function BandScore(s: Store, c: Category, checks: seq<Fact>, applicable: seq<Fact>): (r: Rated)
    ensures r.Rated? && r.score.Available?
  {
    var band := BandOf(c, applicable);
    var findings := BandFindings(s.findings, c);
    var id := PREFIX + Name(c) + "-band";
    Rated(
      Available(CountsOf(checks).(unknown := 0), FactIds(checks), BandValue(band), Some(band),
        if c == Security then Some(|Grouped(AdvisoryIds(findings))|) else None, [id]),
      [Contribution(id, c, RiskBand, 100.0 - BandValue(band), FactIds(applicable), FindingIds(findings),
        EvidenceOf(applicable))])
  }

  function Share(part: nat, whole: nat): real
    requires whole > 0
  {
    100.0 * part as real / whole as real
  }

  function ReadinessScore(c: Category, checks: seq<Fact>, applicable: seq<Fact>): (r: Rated)
    requires applicable != []
    ensures r.Rated? && r.score.Available?
  {
    var contributions := ReadinessContributions(c, applicable, 100.0 / |applicable| as real);
    Rated(
      Available(CountsOf(checks).(unknown := 0), FactIds(checks), Share(CountsOf(checks).passed, |applicable|), None, None, ContributionIds(contributions)),
      contributions)
  }

  function CategoryScore(s: Store, c: Category): Rated {
    var checks := ChecksOf(s.facts, c);
    if Unrated(s, checks) then
      var reasons := ReasonsFor(s, c);
      if reasons == [] then Refused else Rated(Insufficient(CountsOf(checks), FactIds(checks), reasons), [])
    else
      var applicable := Applicable(checks);
      if applicable == [] then Rated(NotApplicable(CountsOf(checks), FactIds(checks)), [])
      else if UsesBand(c) then BandScore(s, c, checks, applicable)
      else ReadinessScore(c, checks, applicable)
  }

  // ----- the overall score -----

  function AllChecks(facts: seq<Fact>, order: seq<Category>): seq<Fact> {
    if order == [] then [] else AllChecks(facts, order[..|order| - 1]) + ChecksOf(facts, order[|order| - 1])
  }

  function AvailableValues(categories: Categories, order: seq<Category>): (r: seq<real>)
    ensures |r| <= |order|
  {
    if order == [] then []
    else
      var last := categories.Of(order[|order| - 1]);
      AvailableValues(categories, order[..|order| - 1]) + (if last.Available? then [last.value] else [])
  }

  function Sum(values: seq<real>): real {
    if values == [] then 0.0 else Sum(values[..|values| - 1]) + values[|values| - 1]
  }

  function Lower(value: real, score: Score): real {
    if score.Available? && score.value < value then score.value else value
  }

  function InsufficientReasons(categories: Categories, order: seq<Category>): (r: seq<string>)
    ensures forall x :: x in r ==> exists c: Category :: c in order && categories.Of(c).Insufficient? && x in categories.Of(c).limitationIds
  {
    if order == [] then []
    else
      var last := categories.Of(order[|order| - 1]);
      assert order == order[..|order| - 1] + [order[|order| - 1]];
      InsufficientReasons(categories, order[..|order| - 1]) + (if last.Insufficient? then last.limitationIds else [])
  }

  predicate SomeInsufficient(categories: Categories) {
    exists c: Category :: categories.Of(c).Insufficient?
  }

  function Mean(values: seq<real>): real
    requires values != []
  {
    Sum(values) / |values| as real
  }

  function OverallScore(s: Store, categories: Categories): Rated {
    var checks := AllChecks(s.facts, ORDER);
    var counts := CountsOf(checks);
    if SomeInsufficient(categories) then
      Rated(Insufficient(counts, FactIds(checks), Sort(ByKey((id: string) => id), Unrepeated(InsufficientReasons(categories, ORDER)))), [])
    else
      var values := AvailableValues(categories, ORDER);
      if values == [] then Rated(NotApplicable(counts, FactIds(checks)), [])
      else
        var mean := Mean(values);
        var value := Lower(Lower(mean, categories.dependencies), categories.security);
        var first := if categories.dependencies.Available? then Dependencies
          else if categories.security.Available? then Security
          else if categories.maintainability.Available? then Maintainability
          else if categories.testing.Available? then Testing else Tooling;
        var id := PREFIX + CEILING;
        Rated(
          Available(counts.(unknown := 0), FactIds(checks), value, None, None, [id]),
          [Contribution(id, first, OverallCeiling, mean - value, FactIds(checks), [], EvidenceOf(checks))])
  }

  /** `None` when the scorer throws: a category without checks needs an explicit limitation. */
  function StackHealth(s: Store): Option<Scores> {
    var d, e, m, t, o := CategoryScore(s, Dependencies), CategoryScore(s, Security), CategoryScore(s, Maintainability), CategoryScore(s, Testing), CategoryScore(s, Tooling);
    if d.Refused? || e.Refused? || m.Refused? || t.Refused? || o.Refused? then None
    else
      var categories := Categories(d.score, e.score, m.score, t.score, o.score);
      var overall := OverallScore(s, categories);
      if overall.Refused? then None
      else Some(Scores(overall.score, categories,
        d.contributions + e.contributions + m.contributions + t.contributions + o.contributions + overall.contributions))
  }
}
