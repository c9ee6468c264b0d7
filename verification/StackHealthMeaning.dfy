/** What the numbers say, stated on the facts and findings themselves: the share of checks that pass, the
    worst severity, the capped average, and how many different advisories there are. */
module StackHealthMeaning {
  import opened Text
  import opened ReportContract
  import opened RulePipelineModel
  import opened AdvisoryGroups
  import opened StackHealthModel
  import opened StackHealthSafety
  import opened StackHealthReport

  // ----- the statements -----

  predicate Shows(f: Fact, c: Category, state: CheckState) {
    f.check.Some? && f.check.value.category == c && f.check.value.state == state
  }

  function Places(facts: seq<Fact>, c: Category, state: CheckState): set<int> {
    set i | 0 <= i < |facts| && Shows(facts[i], c, state)
  }

  function HowMany(s: Store, c: Category, state: CheckState): nat {
    |Places(s.facts, c, state)|
  }

  /** An applicable security check observed that severity. */
  predicate SomeSeverity(s: Store, b: Band) {
    exists f :: f in s.facts && f.check.Some? && f.check.value.category == Security
      && f.check.value.state != CheckNotApplicable && f.check.value.severity == Some(b)
  }

  function WorstSeverity(s: Store): real {
    if SomeSeverity(s, CriticalRisk) then 0.0
    else if SomeSeverity(s, HighRisk) then 40.0
    else if SomeSeverity(s, MediumRisk) then 70.0
    else if SomeSeverity(s, LowRisk) then 90.0
    else 100.0
  }

  /** The inspection rule itself failed. */
  predicate InspectionFailed(s: Store) {
    exists l :: l in s.limitations && l.partialFailure && "JS-INSPECTION-018" in l.ruleIds
  }

  /** What one category's score must be. */
  predicate ScoreSays(s: Store, c: Category, score: Score) {
    var pass, fail := HowMany(s, c, CheckPass), HowMany(s, c, CheckFail);
    var unknown, apart := HowMany(s, c, CheckUnknown), HowMany(s, c, CheckNotApplicable);
    if unknown > 0 || pass + fail + apart == 0 || InspectionFailed(s) then score.Insufficient?
    else if pass + fail == 0 then score.NotApplicable?
    else
      && score.Available?
      && match c
         case Dependencies => score.value == if fail > 0 then 70.0 else 100.0
         case Security => score.value == WorstSeverity(s)
         case _ => score.value * (pass + fail) as real == 100.0 * pass as real
  }

  function Worth(score: Score): real {
    if score.Available? then score.value else 0.0
  }

  function One(score: Score): nat {
    if score.Available? then 1 else 0
  }

  function Total(k: Categories): real {
    Worth(k.dependencies) + Worth(k.security) + Worth(k.maintainability) + Worth(k.testing) + Worth(k.tooling)
  }

  function Rateds(k: Categories): nat {
    One(k.dependencies) + One(k.security) + One(k.maintainability) + One(k.testing) + One(k.tooling)
  }

  /** What the overall score must be. */
  predicate OverallSays(k: Categories, overall: Score) {
    if exists c: Category :: k.Of(c).Insufficient? then overall.Insufficient?
    else if Rateds(k) == 0 then overall.NotApplicable?
    else
      var average := Total(k) / Rateds(k) as real;
      && overall.Available? && overall.value <= average
      && (k.dependencies.Available? ==> overall.value <= k.dependencies.value)
      && (k.security.Available? ==> overall.value <= k.security.value)
      && (|| overall.value == average
          || (k.dependencies.Available? && overall.value == k.dependencies.value)
          || (k.security.Available? && overall.value == k.security.value))
  }

  predicate NamesAdvisory(f: Finding) {
    && f.base.category == Security && f.base.confidence == None && f.base.rule.id == "JS-VULN-011"
    && f.base.advisory.Some?
  }

  /** Each advisory finding's identifiers. */
  function Advisories(s: Store): set<Ids> {
    set f | f in s.findings && NamesAdvisory(f) :: {f.base.advisory.value.id} + set a | a in f.base.advisory.value.aliases
  }

  /** Advisories that share an identifier, directly or through others, count once. */
  ghost predicate AdvisoriesSay(s: Store, count: Option<nat>) {
    count.Some? && exists groups: set<Ids> :: Groups(Advisories(s), groups) && |groups| == count.value
  }

  ghost predicate ScoresSay(s: Store, scores: Scores) {
    && (forall c: Category :: ScoreSays(s, c, scores.categories.Of(c)))
    && OverallSays(scores.categories, scores.overall)
    && (scores.categories.security.Available? ==> AdvisoriesSay(s, scores.categories.security.advisories))
  }

  // ----- counting -----

  lemma {:induction false} InsertCounts(before: (Fact, Fact) -> bool, x: Fact, s: seq<Fact>, state: CheckState)
    ensures CountState(Insert(before, x, s), state) == CountState(s, state) + CountState([x], state)
    decreases |s|
  {
    hide CountState;
    if s == [] { NoneCounted(state); return; }
    assert s == [s[0]] + s[1..];
    if before(x, s[0]) { CountAppend([x], s, state); }
    else {
      InsertCounts(before, x, s[1..], state);
      CountAppend([s[0]], Insert(before, x, s[1..]), state);
      CountAppend([s[0]], s[1..], state);
    }
  }

  lemma {:induction false} SortCounts(before: (Fact, Fact) -> bool, s: seq<Fact>, state: CheckState)
    ensures CountState(Sort(before, s), state) == CountState(s, state)
    decreases |s|
  {
    hide CountState;
    if s == [] { return; }
    SortCounts(before, s[1..], state);
    InsertCounts(before, s[0], Sort(before, s[1..]), state);
    assert s == [s[0]] + s[1..];
    CountAppend([s[0]], s[1..], state);
  }

  lemma {:induction false} OfCategoryAppend(a: seq<Fact>, b: seq<Fact>, c: Category)
    ensures OfCategory(a + b, c) == OfCategory(a, c) + OfCategory(b, c)
    decreases |a|
  {
    if a == [] { assert a + b == b; return; }
    assert (a + b)[1..] == a[1..] + b;
    OfCategoryAppend(a[1..], b, c);
  }

  lemma OneCounts(f: Fact, c: Category, state: CheckState)
    ensures CountState(OfCategory([f], c), state) == if Shows(f, c, state) then 1 else 0
  {
    assert OfCategory([f][1..], c) == [];
    if IsCheck(f, c) { assert OfCategory([f], c) == [f]; }
  }

  lemma PlacesOneMore(rest: seq<Fact>, last: Fact, c: Category, state: CheckState)
    ensures |Places(rest + [last], c, state)| == |Places(rest, c, state)| + if Shows(last, c, state) then 1 else 0
  {
    hide Shows;
    var before := Places(rest, c, state);
    assert Places(rest + [last], c, state) == before + (if Shows(last, c, state) then {|rest|} else {});
    assert |rest| !in before;
  }

  lemma {:induction false} CategoryCounts(facts: seq<Fact>, c: Category, state: CheckState)
    ensures CountState(OfCategory(facts, c), state) == |Places(facts, c, state)|
    decreases |facts|
  {
    hide CountState, OfCategory, IsCheck, Shows, Places;
    if facts == [] { NoneOfCategory(c, state); return; }
    var rest, last := facts[..|facts| - 1], facts[|facts| - 1];
    assert facts == rest + [last];
    CategoryCounts(rest, c, state);
    OneCounts(last, c, state);
    OfCategoryAppend(rest, [last], c);
    CountAppend(OfCategory(rest, c), OfCategory([last], c), state);
    PlacesOneMore(rest, last, c, state);
  }

  lemma NoneOfCategory(c: Category, state: CheckState)
    ensures CountState(OfCategory([], c), state) == 0 == |Places([], c, state)|
  {
  }

  /** The counts of a category are the numbers of its facts in each state. */
  lemma {:induction false} ChecksAreCounted(s: Store, c: Category, state: CheckState)
    ensures CountState(ChecksOf(s.facts, c), state) == HowMany(s, c, state)
  {
    hide CountState;
    SortCounts(ByKey((f: Fact) => f.id), OfCategory(s.facts, c), state);
    CategoryCounts(s.facts, c, state);
  }

  // ----- the worst severity -----

  lemma {:induction false} LowerBandIsLeast(checks: seq<Fact>)
    ensures LowerBand(checks, NoRisk) == NoRisk
      || exists f :: f in checks && f.check.Some? && f.check.value.severity == Some(LowerBand(checks, NoRisk))
    ensures forall f :: f in checks && f.check.Some? && f.check.value.severity.Some? ==>
      BandValue(LowerBand(checks, NoRisk)) <= BandValue(f.check.value.severity.value)
    decreases |checks|
  {
    if checks == [] { return; }
    var rest, last := checks[..|checks| - 1], checks[|checks| - 1];
    LowerBandIsLeast(rest);
    assert checks == rest + [last];
    assert last in checks && forall f :: f in rest ==> f in checks;
  }

  lemma {:induction false} BandIsWorst(s: Store)
    ensures BandValue(LowerBand(Applicable(ChecksOf(s.facts, Security)), NoRisk)) == WorstSeverity(s)
  {
    hide LowerBand, ChecksOf;
    var applicable := Applicable(ChecksOf(s.facts, Security));
    LowerBandIsLeast(applicable);
    ChecksMembers(s.facts, Security);
    forall b: Band ensures SomeSeverity(s, b) <==>
      exists f :: f in applicable && f.check.Some? && f.check.value.severity == Some(b) {}
  }

  // ----- one category -----

  lemma FailedInspectionsSay(s: Store)
    ensures FailedInspections(s) != [] <==> InspectionFailed(s)
  {
    var failed := FailedInspections(s);
    if failed != [] { assert failed[0] in failed; }
    if l :| l in s.limitations && l.partialFailure && "JS-INSPECTION-018" in l.ruleIds { assert l in failed; }
  }

  lemma ShareOfPasses(pass: nat, n: nat)
    requires n > 0
    ensures Share(pass, n) * n as real == 100.0 * pass as real
  {
  }

  /** The scorer's counts, and the facts they count. */
  lemma {:induction false} CountsSay(s: Store, c: Category)
    ensures var checks := ChecksOf(s.facts, c);
      && CountsOf(checks) == Counts(HowMany(s, c, CheckPass), HowMany(s, c, CheckFail), HowMany(s, c, CheckUnknown),
           HowMany(s, c, CheckNotApplicable))
      && |checks| == HowMany(s, c, CheckPass) + HowMany(s, c, CheckFail) + HowMany(s, c, CheckUnknown)
           + HowMany(s, c, CheckNotApplicable)
      && |Applicable(checks)| == |checks| - HowMany(s, c, CheckNotApplicable)
      && CountState(Applicable(checks), CheckFail) == HowMany(s, c, CheckFail)
  {
    hide CountState, ChecksOf, HowMany, Applicable;
    var checks := ChecksOf(s.facts, c);
    ChecksAreCounted(s, c, CheckPass);
    ChecksAreCounted(s, c, CheckFail);
    ChecksAreCounted(s, c, CheckUnknown);
    ChecksAreCounted(s, c, CheckNotApplicable);
    ChecksMembers(s.facts, c);
    CountsAddUp(checks);
    ApplicableCounts(checks);
  }

  lemma {:induction false} CategorySays(s: Store, c: Category)
    requires CategoryScore(s, c).Rated?
    ensures ScoreSays(s, c, CategoryScore(s, c).score)
  {
    hide CountState, ChecksOf, ReasonsFor, FailedInspections, HowMany, InspectionFailed, BandScore, ReadinessScore,
      Applicable, WorstSeverity;
    CountsSay(s, c);
    FailedInspectionsSay(s);
    var checks := ChecksOf(s.facts, c);
    if Unrated(s, checks) || Applicable(checks) == [] { return; }
    BandSays(s, c);
    ReadinessSays(c, checks, HowMany(s, c, CheckPass), HowMany(s, c, CheckPass) + HowMany(s, c, CheckFail));
  }

  lemma BandSays(s: Store, c: Category)
    ensures var checks := ChecksOf(s.facts, c);
      var rated := BandScore(s, c, checks, Applicable(checks));
      && (c == Dependencies ==> rated.score.value == if HowMany(s, c, CheckFail) > 0 then 70.0 else 100.0)
      && (c == Security ==> rated.score.value == WorstSeverity(s))
  {
    hide CountState, ChecksOf, HowMany, Applicable, LowerBand, Grouped, AdvisoryIds, EvidenceOf, BandFindings,
      WorstSeverity;
    CountsSay(s, c);
    BandIsWorst(s);
  }

  lemma ReadinessSays(c: Category, checks: seq<Fact>, pass: nat, n: nat)
    requires Applicable(checks) != [] && |Applicable(checks)| == n && CountsOf(checks).passed == pass
    ensures ReadinessScore(c, checks, Applicable(checks)).score.value * n as real == 100.0 * pass as real
  {
    hide CountState, Applicable, EvidenceOf, Share;
    ShareOfPasses(CountsOf(checks).passed, |Applicable(checks)|);
  }

  // ----- the overall score -----

  lemma SumOfOneMore(values: seq<real>, score: Score)
    ensures Sum(values + (if score.Available? then [score.value] else [])) == Sum(values) + Worth(score)
    ensures |values + (if score.Available? then [score.value] else [])| == |values| + One(score)
  {
    if score.Available? {
      var longer := values + [score.value];
      assert longer[..|longer| - 1] == values;
    } else { assert values + [] == values; }
  }

  lemma ValuesOfOneMore(k: Categories, order: seq<Category>, c: Category)
    ensures Sum(AvailableValues(k, order + [c])) == Sum(AvailableValues(k, order)) + Worth(k.Of(c))
    ensures |AvailableValues(k, order + [c])| == |AvailableValues(k, order)| + One(k.Of(c))
  {
    hide Sum;
    var longer := order + [c];
    assert longer[..|longer| - 1] == order && longer[|longer| - 1] == c;
    SumOfOneMore(AvailableValues(k, order), k.Of(c));
  }

  lemma {:induction false} ValuesTotal(k: Categories)
    ensures Sum(AvailableValues(k, ORDER)) == Total(k) && |AvailableValues(k, ORDER)| == Rateds(k)
  {
    hide AvailableValues, Sum, Worth, One;
    NoValues(k);
    var none: seq<Category> := [];
    ValuesOfOneMore(k, none, Dependencies);
    ValuesOfOneMore(k, none + [Dependencies], Security);
    ValuesOfOneMore(k, none + [Dependencies] + [Security], Maintainability);
    ValuesOfOneMore(k, none + [Dependencies] + [Security] + [Maintainability], Testing);
    ValuesOfOneMore(k, none + [Dependencies] + [Security] + [Maintainability] + [Testing], Tooling);
    assert ORDER == none + [Dependencies] + [Security] + [Maintainability] + [Testing] + [Tooling];
  }

  lemma NoValues(k: Categories)
    ensures AvailableValues(k, []) == [] && Sum([]) == 0.0
  {
  }

  lemma {:induction false} OverallIsSaid(s: Store, k: Categories)
    requires OverallScore(s, k).Rated?
    ensures OverallSays(k, OverallScore(s, k).score)
  {
    hide AvailableValues, CountState, AllChecks, EvidenceOf, InsufficientReasons, Sort, Unrepeated, Sum, Total, Rateds;
    ValuesTotal(k);
  }

  // ----- advisories -----

  lemma {:induction false} AdvisoryIdsOf(findings: seq<Finding>)
    ensures forall ids :: ids in AdvisoryIds(findings) <==>
      exists f :: f in findings && f.base.advisory.Some?
        && ids == {f.base.advisory.value.id} + set a | a in f.base.advisory.value.aliases
    decreases |findings|
  {
    if findings == [] { return; }
    var rest, last := findings[..|findings| - 1], findings[|findings| - 1];
    AdvisoryIdsOf(rest);
    assert findings == rest + [last];
    assert forall f :: f in findings <==> f in rest || f == last;
  }

  lemma {:induction false} BandFindingsOf(findings: seq<Finding>, c: Category)
    ensures forall f :: f in BandFindings(findings, c) <==> f in findings && BandFinding(f, c)
    decreases |findings|
  {
    if findings == [] { return; }
    BandFindingsOf(findings[1..], c);
    assert findings == [findings[0]] + findings[1..];
  }

  lemma {:induction false} AdvisoriesAreCounted(s: Store)
    ensures AdvisoriesSay(s, Some(|Grouped(AdvisoryIds(BandFindings(s.findings, Security)))|))
  {
    hide Grouped, AdvisoryIds, BandFindings, Groups;
    var findings := BandFindings(s.findings, Security);
    var ids := AdvisoryIds(findings);
    BandFindingsOf(s.findings, Security);
    AdvisoryIdsOf(findings);
    assert SetOf(ids) == Advisories(s);
    GroupedAreComponents(ids);
    AdvisoryCountIgnoresOrder(ids, ids);
  }

  /** Every score the scorer gives, in plain words. */
  lemma {:induction false} ScoresInPlainWords(s: Store)
    requires StackHealth(s).Some?
    ensures ScoresSay(s, StackHealth(s).value)
  {
    hide CategoryScore, OverallScore, ScoreSays, OverallSays, StackHealth, AdvisoriesSay;
    var scores := StackHealth(s).value;
    ScoredCategories(s);
    forall c: Category ensures ScoreSays(s, c, scores.categories.Of(c)) { CategorySays(s, c); }
    OverallIsSaid(s, scores.categories);
    if scores.categories.security.Available? {
      assert scores.categories.security == scores.categories.Of(Security);
      SecurityCounts(s);
      AdvisoriesAreCounted(s);
    }
  }

  lemma SecurityCounts(s: Store)
    requires CategoryScore(s, Security).Rated? && CategoryScore(s, Security).score.Available?
    ensures CategoryScore(s, Security).score.advisories ==
      Some(|Grouped(AdvisoryIds(BandFindings(s.findings, Security)))|)
  {
    hide CountState, ChecksOf, ReasonsFor, FailedInspections, LowerBand, Grouped, AdvisoryIds, EvidenceOf, BandFindings,
      BandValue, Applicable;
  }
}
