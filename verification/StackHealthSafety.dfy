/** The scorer's promises: scores are percentages, deductions account for them exactly, setup cannot
    raise a lower dependency or security score, fixing a check never lowers a score, and everything
    it reports satisfies the report's cross-checks. */
module StackHealthSafety {
  import opened Text
  import opened ReportContract
  import opened RulePipelineModel
  import opened RulePipelineSafety
  import opened AdvisoryGroups
  import opened StackHealthModel

  // ----- counting -----

  lemma {:induction false} CountAppend(a: seq<Fact>, b: seq<Fact>, state: CheckState)
    ensures CountState(a + b, state) == CountState(a, state) + CountState(b, state)
    decreases |b|
  {
    if b == [] { assert a + b == a; }
    else {
      var rest := b[..|b| - 1];
      assert (a + b)[..|a + b| - 1] == a + rest && (a + b)[|a + b| - 1] == b[|b| - 1];
      CountAppend(a, rest, state);
    }
  }

  lemma NoneCounted(state: CheckState)
    ensures CountState([], state) == 0
  {
  }

  predicate AllChecked(facts: seq<Fact>) {
    forall f :: f in facts ==> f.check.Some?
  }

  lemma {:induction false} CountsAddUp(facts: seq<Fact>)
    requires AllChecked(facts)
    ensures CountState(facts, CheckPass) + CountState(facts, CheckFail) + CountState(facts, CheckUnknown) + CountState(facts, CheckNotApplicable) == |facts|
    decreases |facts|
  {
    if facts != [] {
      assert facts[|facts| - 1] in facts;
      CountsAddUp(facts[..|facts| - 1]);
    }
  }

  lemma {:induction false} ApplicableCounts(facts: seq<Fact>)
    ensures |Applicable(facts)| + CountState(facts, CheckNotApplicable) == |facts|
    ensures CountState(Applicable(facts), CheckPass) == CountState(facts, CheckPass)
    ensures CountState(Applicable(facts), CheckFail) == CountState(facts, CheckFail)
    decreases |facts|
  {
    hide CountState;
    NoneCounted(CheckPass);
    NoneCounted(CheckFail);
    NoneCounted(CheckNotApplicable);
    if facts != [] {
      var rest, last := facts[..|facts| - 1], facts[|facts| - 1];
      assert facts == rest + [last];
      ApplicableCounts(rest);
      CountOneMore(rest, last);
      if InState(last, CheckNotApplicable) { assert Applicable(rest) + [] == Applicable(rest); }
      else { CountOneMore(Applicable(rest), last); }
    }
  }

  lemma {:induction false} CountOneMore(facts: seq<Fact>, last: Fact)
    ensures forall state :: CountState(facts + [last], state) == CountState(facts, state) + (if InState(last, state) then 1 else 0)
  {
    assert (facts + [last])[..|facts|] == facts;
  }

  lemma {:induction false} CountedIsMember(facts: seq<Fact>, state: CheckState)
    ensures CountState(facts, state) > 0 <==> exists f :: f in facts && InState(f, state)
    decreases |facts|
  {
    if facts != [] {
      var rest, last := facts[..|facts| - 1], facts[|facts| - 1];
      CountedIsMember(rest, state);
      assert facts == rest + [last];
      assert forall f :: f in facts <==> f in rest || f == last;
    }
  }

  // ----- the checks of a category -----

  lemma {:induction false} ChecksMembers(facts: seq<Fact>, c: Category)
    ensures forall f :: f in ChecksOf(facts, c) <==> f in facts && IsCheck(f, c)
    ensures AllChecked(ChecksOf(facts, c))
  {
    SortMembers(ByKey((f: Fact) => f.id), OfCategory(facts, c));
  }

  lemma {:induction false} OfCategoryDistinct(facts: seq<Fact>, c: Category)
    requires Distinct(FactIds(facts))
    ensures Distinct(FactIds(OfCategory(facts, c)))
    decreases |facts|
  {
    if facts != [] {
      var rest := OfCategory(facts[1..], c);
      HeadIsDistinct(facts);
      OfCategoryDistinct(facts[1..], c);
      if IsCheck(facts[0], c) {
        IdsAreKnown(rest, facts[1..]);
        DistinctWithHead(facts[0], rest);
      } else { assert [] + rest == rest; }
    }
  }

  lemma {:induction false} HeadIsDistinct(facts: seq<Fact>)
    requires facts != [] && Distinct(FactIds(facts))
    ensures Distinct(FactIds(facts[1..])) && facts[0].id !in FactIds(facts[1..])
  {
    var ids, rest := FactIds(facts), FactIds(facts[1..]);
    forall i | 0 <= i < |rest| ensures rest[i] == ids[i + 1] && ids[i + 1] != ids[0] { assert facts[1..][i] == facts[i + 1]; }
    forall i, j | 0 <= i < j < |rest| ensures rest[i] != rest[j] { assert ids[i + 1] != ids[j + 1]; }
  }

  lemma {:induction false} DistinctWithHead(f: Fact, rest: seq<Fact>)
    requires Distinct(FactIds(rest)) && f.id !in FactIds(rest)
    ensures Distinct(FactIds([f] + rest))
  {
    IdsAppend([f], rest, (x: Fact) => x.id);
    assert FactIds([f]) == [f.id];
    NewIdsStayDistinct([f.id], FactIds(rest));
  }

  lemma {:induction false} ChecksDistinct(facts: seq<Fact>, c: Category)
    requires Distinct(FactIds(facts))
    ensures Distinct(FactIds(ChecksOf(facts, c)))
  {
    var all, sorted := OfCategory(facts, c), ChecksOf(facts, c);
    OfCategoryDistinct(facts, c);
    var id := (f: Fact) => f.id;
    MapPermutes(all, sorted, id);
    assert FactIds(all) == Mapped(all, id) && FactIds(sorted) == Mapped(sorted, id);
    DistinctByMultiplicity(FactIds(all));
    DistinctByMultiplicity(FactIds(sorted));
  }

  /** A fact is found under its own id. */
  lemma {:induction false} FoundByOwnId(facts: seq<Fact>, f: Fact)
    requires Distinct(FactIds(facts)) && f in facts
    ensures FindFact(facts, f.id) == Some(f)
  {
    var i :| 0 <= i < |facts| && facts[i] == f;
    assert FactIds(facts)[i] == f.id;
    var found := FindFact(facts, f.id);
    var j :| 0 <= j < |facts| && facts[j] == found.value;
    assert FactIds(facts)[j] == f.id;
  }

  /** The checker's tally of listed checks is the scorer's count. */
  lemma {:induction false} TallyIsCounts(facts: seq<Fact>, checks: seq<Fact>)
    requires Distinct(FactIds(facts)) && AllChecked(checks) && forall f :: f in checks ==> f in facts
    ensures Tally(facts, FactIds(checks)) == CountsOf(checks)
    decreases |checks|
  {
    hide FindFact, Distinct, CountState;
    if checks == [] {
      NoneCounted(CheckPass);
      NoneCounted(CheckFail);
      NoneCounted(CheckUnknown);
      NoneCounted(CheckNotApplicable);
    } else {
      var rest, last := checks[..|checks| - 1], checks[|checks| - 1];
      assert checks == rest + [last];
      assert last in checks && forall f :: f in rest ==> f in checks;
      TallyIsCounts(facts, rest);
      CountOneMore(rest, last);
      assert FactIds(checks)[..|checks| - 1] == FactIds(rest) && FactIds(checks)[|checks| - 1] == last.id;
      FoundByOwnId(facts, last);
      assert CheckOf(facts, last.id) == last.check;
    }
  }

  lemma {:induction false} ChecksFit(facts: seq<Fact>, c: Option<Category>, checks: seq<Fact>)
    requires Distinct(FactIds(facts)) && AllChecked(checks) && forall f :: f in checks ==> f in facts
    requires c.Some? ==> forall f :: f in checks ==> IsCheck(f, c.value)
    ensures forall id :: id in FactIds(checks) ==> CheckFits(facts, c, id)
  {
    forall id | id in FactIds(checks) ensures CheckFits(facts, c, id) {
      var i :| 0 <= i < |checks| && FactIds(checks)[i] == id;
      assert checks[i] in checks;
      FoundByOwnId(facts, checks[i]);
    }
  }

  // ----- what the scorer reports passes the cross-checks -----

  /** References of the report's own parts that scoring relies on. */
  predicate Scorable(c: Context, s: Store) {
    && Distinct(FactIds(s.facts))
    && (forall f :: f in s.facts ==> Known(f.evidenceIds, EvidenceIds(c.evidence)) && CheckLimitationsOk(f, LimitationIds(s.limitations)))
  }

  lemma {:induction false} EvidenceIsKnown(c: Context, s: Store, facts: seq<Fact>)
    requires Scorable(c, s) && forall f :: f in facts ==> f in s.facts
    ensures Known(EvidenceOf(facts), EvidenceIds(c.evidence))
  {
    var lists := seq(|facts|, i requires 0 <= i < |facts| => facts[i].evidenceIds);
    forall x | x in EvidenceOf(facts) ensures x in EvidenceIds(c.evidence) {
      var i :| 0 <= i < |lists| && x in lists[i];
      assert facts[i] in facts;
    }
  }

  lemma IdsAreKnown(some: seq<Fact>, all: seq<Fact>)
    requires forall f :: f in some ==> f in all
    ensures Known(FactIds(some), FactIds(all))
  {
    forall id | id in FactIds(some) ensures id in FactIds(all) {
      var i :| 0 <= i < |some| && FactIds(some)[i] == id;
      assert some[i] in all;
      var j :| 0 <= j < |all| && all[j] == some[i];
      assert FactIds(all)[j] == id;
    }
  }

  lemma FindingIdsAreKnown(some: seq<Finding>, all: seq<Finding>)
    requires forall f :: f in some ==> f in all
    ensures Known(FindingIds(some), FindingIds(all))
  {
    forall id | id in FindingIds(some) ensures id in FindingIds(all) {
      var i :| 0 <= i < |some| && FindingIds(some)[i] == id;
      assert some[i] in all;
      var j :| 0 <= j < |all| && all[j] == some[i];
      assert FindingIds(all)[j] == id;
    }
  }

  lemma KeptAreMembers(s: Store, category: Category)
    ensures forall l :: l in FailedInspections(s) ==> l in s.limitations
    ensures forall l :: l in Related(s, category) ==> l in s.limitations
  {
  }

  lemma {:induction false} UnknownLimitationsAreKnown(c: Context, s: Store, checks: seq<Fact>)
    requires Scorable(c, s) && forall f :: f in checks ==> f in s.facts
    ensures Known(UnknownLimitations(checks), LimitationIds(s.limitations))
  {
    forall id | id in UnknownLimitations(checks) ensures id in LimitationIds(s.limitations) {
      var lists := seq(|checks|, i requires 0 <= i < |checks| => if InState(checks[i], CheckUnknown) then checks[i].check.value.limitationIds else []);
      var i :| 0 <= i < |lists| && id in lists[i];
      assert checks[i] in checks;
    }
  }

  lemma {:induction false} ReasonsAreKnown(c: Context, s: Store, category: Category)
    requires Scorable(c, s)
    ensures Known(ReasonsFor(s, category), LimitationIds(s.limitations))
  {
    hide ChecksOf, UnknownLimitations, FailedInspections, Related, Sort, Unrepeated, Distinct;
    var checks := ChecksOf(s.facts, category);
    ChecksMembers(s.facts, category);
    KeptAreMembers(s, category);
    IdsOfMembers(FailedInspections(s), s.limitations);
    IdsOfMembers(Related(s, category), s.limitations);
    UnknownLimitationsAreKnown(c, s, checks);
    var unknown := UnknownLimitations(checks);
    var all := Unrepeated(unknown + LimitationIds(FailedInspections(s)) + (if checks == [] then LimitationIds(Related(s, category)) else []));
    SortMembers(ByKey((id: string) => id), all);
  }

  predicate RatedOk(c: Context, s: Store, category: Option<Category>, rated: Rated) {
    rated.Rated? ==>
      && ScoreOk(rated.score, category, s.facts, ContributionIds(rated.contributions), LimitationIds(s.limitations))
      && forall x :: x in rated.contributions ==> ContributionOk(x, FactIds(s.facts), FindingIds(s.findings),
        EvidenceIds(c.evidence))
  }

  /** The checks a score lists are distinct, of the right kind, and counted as the checker counts. */
  predicate Listed(s: Store, category: Option<Category>, checks: seq<Fact>) {
    && Distinct(FactIds(checks))
    && (forall id :: id in FactIds(checks) ==> CheckFits(s.facts, category, id))
    && Tally(s.facts, FactIds(checks)) == CountsOf(checks)
  }

  lemma {:induction false} ChecksAreListed(s: Store, category: Category)
    requires Distinct(FactIds(s.facts))
    ensures Listed(s, Some(category), ChecksOf(s.facts, category))
    ensures AllChecked(ChecksOf(s.facts, category)) && forall f :: f in ChecksOf(s.facts, category) ==> f in s.facts
  {
    hide Tally, CountState, Sort, FindFact, Distinct, ChecksOf;
    ChecksMembers(s.facts, category);
    ChecksDistinct(s.facts, category);
    TallyIsCounts(s.facts, ChecksOf(s.facts, category));
    ChecksFit(s.facts, Some(category), ChecksOf(s.facts, category));
  }

  lemma {:induction false} BandScoreIsOk(c: Context, s: Store, category: Category, checks: seq<Fact>,
      applicable: seq<Fact>)
    requires Scorable(c, s) && Listed(s, Some(category), checks) && CountState(checks, CheckUnknown) == 0
    requires forall f :: f in applicable ==> f in s.facts
    ensures RatedOk(c, s, Some(category), BandScore(s, category, checks, applicable))
  {
    hide Tally, CountState, Grouped, AdvisoryIds, BandOf, EvidenceOf, Distinct, CheckFits, BandFindings;
    EvidenceIsKnown(c, s, applicable);
    IdsAreKnown(applicable, s.facts);
    FindingIdsAreKnown(BandFindings(s.findings, category), s.findings);
    var rated := BandScore(s, category, checks, applicable);
    assert ContributionIds(rated.contributions) == rated.score.contributionIds;
  }

  lemma {:induction false} ReadinessScoreIsOk(c: Context, s: Store, category: Category, checks: seq<Fact>,
      applicable: seq<Fact>)
    requires Scorable(c, s) && Listed(s, Some(category), checks) && CountState(checks, CheckUnknown)
      == 0 && applicable != []
    requires forall f :: f in applicable ==> f in s.facts
    ensures RatedOk(c, s, Some(category), ReadinessScore(category, checks, applicable))
  {
    hide Tally, CountState, EvidenceOf, Distinct, CheckFits, Share;
    var rated := ReadinessScore(category, checks, applicable);
    forall x | x in rated.contributions ensures ContributionOk(x, FactIds(s.facts), FindingIds(s.findings),
      EvidenceIds(c.evidence)) {
      var i :| 0 <= i < |applicable| && x == ReadinessContribution(category, applicable[i],
        100.0 / |applicable| as real);
      assert applicable[i] in applicable;
      EvidenceIsKnown(c, s, [applicable[i]]);
      IdsAreKnown([applicable[i]], s.facts);
      assert FactIds([applicable[i]]) == [applicable[i].id];
    }
  }

  lemma {:induction false} CategoryScoreIsOk(c: Context, s: Store, category: Category)
    requires Scorable(c, s)
    ensures RatedOk(c, s, Some(category), CategoryScore(s, category))
  {
    hide Tally, CountState, ReasonsFor, ChecksOf, FailedInspections, Distinct, BandScore, ReadinessScore, CheckFits;
    var checks := ChecksOf(s.facts, category);
    var applicable := Applicable(checks);
    ChecksAreListed(s, category);
    if Unrated(s, checks) { ReasonsAreKnown(c, s, category); }
    else if applicable == [] {
      ApplicableCounts(checks);
      CountsAddUp(checks);
    } else if UsesBand(category) { BandScoreIsOk(c, s, category, checks, applicable); }
    else { ReadinessScoreIsOk(c, s, category, checks, applicable); }
  }

  lemma {:induction false} AllChecksMembers(facts: seq<Fact>, order: seq<Category>)
    ensures forall f :: f in AllChecks(facts, order) <==> exists c: Category :: c in order && f in facts && IsCheck(f,
      c)
    ensures AllChecked(AllChecks(facts, order))
    decreases |order|
  {
    if order != [] {
      var rest, last := order[..|order| - 1], order[|order| - 1];
      AllChecksMembers(facts, rest);
      ChecksMembers(facts, last);
      assert order == rest + [last];
    }
  }

  lemma OtherCategory(facts: seq<Fact>, order: seq<Category>, c: Category)
    requires c !in order
    ensures forall f :: f in AllChecks(facts, order) ==> !IsCheck(f, c)
  {
    AllChecksMembers(facts, order);
  }

  lemma {:induction false} AllChecksDistinct(facts: seq<Fact>, order: seq<Category>)
    requires Distinct(FactIds(facts)) && forall i, j :: 0 <= i < j < |order| ==> order[i] != order[j]
    ensures Distinct(FactIds(AllChecks(facts, order)))
    decreases |order|
  {
    hide ChecksOf, Distinct;
    if order == [] { NoIds(); return; }
    var rest, last := order[..|order| - 1], order[|order| - 1];
    assert last !in rest;
    AllChecksDistinct(facts, rest);
    ChecksDistinct(facts, last);
    var a, b := AllChecks(facts, rest), ChecksOf(facts, last);
    AllChecksMembers(facts, rest);
    ChecksMembers(facts, last);
    OtherCategory(facts, rest, last);
    forall id | id in FactIds(b) ensures id !in FactIds(a) {
      var j :| 0 <= j < |b| && FactIds(b)[j] == id;
      assert b[j] in b;
      FoundByOwnId(facts, b[j]);
      if id in FactIds(a) {
        var i :| 0 <= i < |a| && FactIds(a)[i] == id;
        assert a[i] in a;
        FoundByOwnId(facts, a[i]);
      }
    }
    IdsAppend(a, b, (f: Fact) => f.id);
    NewIdsStayDistinct(FactIds(a), FactIds(b));
  }

  lemma NoIds()
    ensures Distinct(FactIds([]))
  {
  }

  predicate AllNotApplicable(facts: seq<Fact>) {
    forall f :: f in facts ==> InState(f, CheckNotApplicable)
  }

  lemma {:induction false} AllChecksAreListed(s: Store)
    requires Distinct(FactIds(s.facts))
    ensures Listed(s, None, AllChecks(s.facts, ORDER))
    ensures forall f :: f in AllChecks(s.facts, ORDER) ==> f in s.facts
  {
    hide Tally, CountState, FindFact, Distinct, AllChecks;
    AllChecksMembers(s.facts, ORDER);
    AllChecksDistinct(s.facts, ORDER);
    TallyIsCounts(s.facts, AllChecks(s.facts, ORDER));
    ChecksFit(s.facts, None, AllChecks(s.facts, ORDER));
  }

  /** All categories of `categories` are the rated scores of the store. */
  ghost predicate RatedCategories(s: Store, categories: Categories) {
    forall k: Category :: CategoryScore(s, k).Rated? && categories.Of(k) == CategoryScore(s, k).score
  }

  lemma {:induction false} OverallReasonsAreKnown(c: Context, s: Store, categories: Categories)
    requires Scorable(c, s) && RatedCategories(s, categories)
    ensures Known(Sort(ByKey((id: string) => id), Unrepeated(InsufficientReasons(categories, ORDER))),
      LimitationIds(s.limitations))
  {
    hide CategoryScore, InsufficientReasons, Sort;
    SortMembers(ByKey((id: string) => id), Unrepeated(InsufficientReasons(categories, ORDER)));
    forall id | id in InsufficientReasons(categories, ORDER) ensures id in LimitationIds(s.limitations) {
      var k: Category :| k in ORDER && categories.Of(k).Insufficient? && id in categories.Of(k).limitationIds;
      CategoryScoreIsOk(c, s, k);
    }
  }

  lemma {:induction false} OverallCounts(s: Store, categories: Categories)
    requires RatedCategories(s, categories) && !SomeInsufficient(categories)
    ensures CountState(AllChecks(s.facts, ORDER), CheckUnknown) == 0
    ensures AvailableValues(categories, ORDER) == [] ==>
      CountState(AllChecks(s.facts, ORDER), CheckPass) + CountState(AllChecks(s.facts, ORDER), CheckFail) == 0
  {
    hide CategoryScore, CountState, ChecksOf, AllChecks, AvailableValues;
    forall k: Category ensures CountState(ChecksOf(s.facts, k), CheckUnknown) == 0 { RatedHasNoUnknown(s, k, categories); }
    NoUnknownOverall(s.facts, ORDER);
    if AvailableValues(categories, ORDER) == [] {
      NoneAvailable(categories, ORDER);
      forall k: Category ensures AllNotApplicable(ChecksOf(s.facts, k)) {
        InOrder5(k);
        assert !categories.Of(k).Insufficient?;
        NotApplicableMeansAll(s, k);
      }
      NothingApplies(s.facts, ORDER);
    }
  }

  /** The overall score lists every check, and is rated once all categories are. */
  lemma {:induction false} OverallScoreIsOk(c: Context, s: Store, categories: Categories)
    requires Scorable(c, s) && RatedCategories(s, categories)
    ensures RatedOk(c, s, None, OverallScore(s, categories))
  {
    hide Tally, CountState, EvidenceOf, Distinct, CategoryScore, Mean, AvailableValues, InsufficientReasons, Lower,
      AllChecks, CheckFits, Sort, Unrepeated;
    var checks := AllChecks(s.facts, ORDER);
    AllChecksAreListed(s);
    EvidenceIsKnown(c, s, checks);
    IdsAreKnown(checks, s.facts);
    assert Known([], FindingIds(s.findings));
    OverallReasonsAreKnown(c, s, categories);
    var rated := OverallScore(s, categories);
    if !SomeInsufficient(categories) {
      OverallCounts(s, categories);
      if AvailableValues(categories, ORDER) != [] { assert ContributionIds(rated.contributions) == rated.score.contributionIds; }
    }
  }

  lemma InOrder5(k: Category)
    ensures k in ORDER
  {
    match k {
      case Dependencies => assert ORDER[0] == k;
      case Security => assert ORDER[1] == k;
      case Maintainability => assert ORDER[2] == k;
      case Testing => assert ORDER[3] == k;
      case Tooling => assert ORDER[4] == k;
    }
  }

  lemma RatedHasNoUnknown(s: Store, k: Category, categories: Categories)
    requires !SomeInsufficient(categories) && CategoryScore(s, k).Rated? && categories.Of(k)
      == CategoryScore(s, k).score
    ensures CountState(ChecksOf(s.facts, k), CheckUnknown) == 0 && ChecksOf(s.facts, k) != []
  {
    hide CountState, ChecksOf, ReasonsFor, FailedInspections, Applicable, BandScore, ReadinessScore;
    assert !categories.Of(k).Insufficient?;
  }

  lemma {:induction false} NoUnknownOverall(facts: seq<Fact>, order: seq<Category>)
    requires forall k: Category :: CountState(ChecksOf(facts, k), CheckUnknown) == 0
    ensures CountState(AllChecks(facts, order), CheckUnknown) == 0
    decreases |order|
  {
    hide ChecksOf;
    if order != [] {
      NoUnknownOverall(facts, order[..|order| - 1]);
      CountAppend(AllChecks(facts, order[..|order| - 1]), ChecksOf(facts, order[|order| - 1]), CheckUnknown);
    }
  }

  lemma {:induction false} NoneAvailable(categories: Categories, order: seq<Category>)
    requires AvailableValues(categories, order) == []
    ensures forall k: Category :: k in order ==> !categories.Of(k).Available?
    decreases |order|
  {
    if order != [] {
      NoneAvailable(categories, order[..|order| - 1]);
      assert order == order[..|order| - 1] + [order[|order| - 1]];
    }
  }

  lemma {:induction false} NotApplicableMeansAll(s: Store, k: Category)
    requires CategoryScore(s, k).Rated? && CategoryScore(s, k).score.NotApplicable?
    ensures AllNotApplicable(ChecksOf(s.facts, k))
  {
    hide CountState, ChecksOf, ReasonsFor, FailedInspections;
    var checks := ChecksOf(s.facts, k);
    assert Applicable(checks) == [];
    forall f | f in checks ensures InState(f, CheckNotApplicable) {
      assert f !in Applicable(checks);
    }
  }

  lemma {:induction false} NothingApplies(facts: seq<Fact>, order: seq<Category>)
    requires forall k: Category :: AllNotApplicable(ChecksOf(facts, k))
    ensures var n := CountsOf(AllChecks(facts, order)); n.passed + n.failed + n.unknown == 0
  {
    hide ChecksOf;
    var all := AllChecks(facts, order);
    AllInherit(facts, order);
    CountedIsMember(all, CheckPass);
    CountedIsMember(all, CheckFail);
    CountedIsMember(all, CheckUnknown);
  }

  lemma {:induction false} AllInherit(facts: seq<Fact>, order: seq<Category>)
    requires forall k: Category :: AllNotApplicable(ChecksOf(facts, k))
    ensures AllNotApplicable(AllChecks(facts, order))
    decreases |order|
  {
    hide ChecksOf;
    if order != [] { AllInherit(facts, order[..|order| - 1]); }
  }
}
