/** The pipeline's result and the scorer's output form a report that the independent checker accepts,
    exactly unless a readiness check's fact bears the name of another contribution. */
module StackHealthReport {
  import opened Text
  import opened ReportContract
  import opened RulePipelineModel
  import opened RulePipelineSafety
  import opened AdvisoryGroups
  import opened StackHealthModel
  import opened StackHealthSafety

  function Contributed(s: Store, c: Category): seq<Contribution> {
    var rated := CategoryScore(s, c);
    if rated.Rated? then rated.contributions else []
  }

  function AllContributions(s: Store, categories: Categories): seq<Contribution> {
    Contributed(s, Dependencies) + Contributed(s, Security) + Contributed(s, Maintainability) + Contributed(s, Testing) + Contributed(s, Tooling)
      + (if OverallScore(s, categories).Rated? then OverallScore(s, categories).contributions else [])
  }

  lemma {:induction false} ScoredCategories(s: Store)
    requires StackHealth(s).Some?
    ensures var scores := StackHealth(s).value;
      && RatedCategories(s, scores.categories)
      && OverallScore(s, scores.categories).Rated? && scores.overall == OverallScore(s, scores.categories).score
      && scores.contributions == AllContributions(s, scores.categories)
  {
    hide CategoryScore, OverallScore;
    var categories := StackHealth(s).value.categories;
    forall k: Category ensures CategoryScore(s, k).Rated? && categories.Of(k) == CategoryScore(s, k).score {
      match k {
        case Dependencies =>
        case Security =>
        case Maintainability =>
        case Testing =>
        case Tooling =>
      }
    }
  }

  // ----- contribution ids -----

  predicate IsReadiness(c: Category) {
    c == Maintainability || c == Testing || c == Tooling
  }

  /** The facts whose checks a readiness score turns into contributions. */
  function ContributingChecks(s: Store, c: Category): seq<Fact> {
    var rated := CategoryScore(s, c);
    if IsReadiness(c) && rated.Rated? && rated.score.Available? then Applicable(ChecksOf(s.facts, c)) else []
  }

  function AllContributingChecks(s: Store): seq<Fact> {
    ContributingChecks(s, Maintainability) + ContributingChecks(s, Testing) + ContributingChecks(s, Tooling)
  }

  /** The names of the band and ceiling contributions that are present. */
  function FixedNames(s: Store, categories: Categories): seq<string> {
    (if categories.dependencies.Available? then ["dependencies-band"] else [])
      + (if categories.security.Available? then ["security-band"] else [])
      + (if OverallScore(s, categories).Rated? && OverallScore(s, categories).score.Available? then [CEILING] else [])
  }

  /** Some readiness check's fact id is the name of another contribution of the same report. */
  predicate NameClash(s: Store, categories: Categories) {
    exists id :: id in FactIds(AllContributingChecks(s)) && id in FixedNames(s, categories)
  }

  function Prefixed(names: seq<string>): (r: seq<string>)
    ensures |r| == |names| && forall i :: 0 <= i < |r| ==> r[i] == PREFIX + names[i]
  {
    seq(|names|, i requires 0 <= i < |names| => PREFIX + names[i])
  }

  lemma PrefixedAppend(a: seq<string>, b: seq<string>)
    ensures Prefixed(a + b) == Prefixed(a) + Prefixed(b)
  {
  }

  lemma {:induction false} PrefixKeepsDistinct(names: seq<string>)
    ensures Distinct(Prefixed(names)) <==> Distinct(names)
  {
    var ids := Prefixed(names);
    forall i | 0 <= i < |names| ensures ids[i][|PREFIX|..] == names[i] {}
  }

  lemma {:induction false} BandContributes(s: Store, c: Category)
    requires UsesBand(c) && CategoryScore(s, c).Rated?
    ensures ContributionIds(CategoryScore(s, c).contributions) ==
      Prefixed(if CategoryScore(s, c).score.Available? then [Name(c) + "-band"] else [])
  {
    hide CountState, ChecksOf, ReasonsFor, FailedInspections, BandOf, Grouped, AdvisoryIds, EvidenceOf, BandFindings,
      Applicable;
    assert PREFIX + (Name(c) + "-band") == PREFIX + Name(c) + "-band";
  }

  lemma {:induction false} ReadinessContributes(s: Store, c: Category)
    requires IsReadiness(c) && CategoryScore(s, c).Rated?
    ensures ContributionIds(CategoryScore(s, c).contributions) == Prefixed(FactIds(ContributingChecks(s, c)))
  {
    hide CountState, ChecksOf, ReasonsFor, FailedInspections, EvidenceOf, Applicable, Share;
  }

  lemma {:induction false} OverallContributes(s: Store, categories: Categories)
    requires OverallScore(s, categories).Rated?
    ensures ContributionIds(OverallScore(s, categories).contributions) ==
      Prefixed(if OverallScore(s, categories).score.Available? then [CEILING] else [])
  {
    hide CountState, AllChecks, EvidenceOf, Mean, Lower, AvailableValues, InsufficientReasons, Sort;
  }

  /** The ids in order: bands, then readiness checks, then the ceiling. */
  lemma {:induction false} ContributionNames(s: Store)
    requires StackHealth(s).Some?
    ensures var scores := StackHealth(s).value;
      var categories := scores.categories;
      ContributionIds(scores.contributions) == Prefixed(
        (if categories.dependencies.Available? then ["dependencies-band"] else [])
        + (if categories.security.Available? then ["security-band"] else [])
        + FactIds(AllContributingChecks(s))
        + (if OverallScore(s, categories).score.Available? then [CEILING] else []))
  {
    hide CategoryScore, OverallScore, StackHealth, ContributingChecks, Prefixed;
    ScoredCategories(s);
    var categories := StackHealth(s).value.categories;
    BandContributes(s, Dependencies);
    BandContributes(s, Security);
    ReadinessContributes(s, Maintainability);
    ReadinessContributes(s, Testing);
    ReadinessContributes(s, Tooling);
    OverallContributes(s, categories);
    assert categories.Of(Dependencies) == categories.dependencies && categories.Of(Security) == categories.security;
    assert Name(Dependencies) + "-band" == "dependencies-band" && Name(Security) + "-band" == "security-band";
    assert AllContributions(s, categories) == Contributed(s, Dependencies) + Contributed(s, Security) + Contributed(s,
      Maintainability)
      + Contributed(s, Testing) + Contributed(s, Tooling) + OverallScore(s, categories).contributions;
    SixIds(Contributed(s, Dependencies), Contributed(s, Security), Contributed(s, Maintainability),
      Contributed(s, Testing), Contributed(s, Tooling), OverallScore(s, categories).contributions);
    SixNames(if categories.dependencies.Available? then ["dependencies-band"] else [],
      if categories.security.Available? then ["security-band"] else [],
      FactIds(ContributingChecks(s, Maintainability)), FactIds(ContributingChecks(s, Testing)), FactIds(ContributingChecks(s, Tooling)),
      if OverallScore(s, categories).score.Available? then [CEILING] else []);
    ThreeFactIds(ContributingChecks(s, Maintainability), ContributingChecks(s, Testing),
      ContributingChecks(s, Tooling));
  }

  lemma SixIds(d: seq<Contribution>, e: seq<Contribution>, m: seq<Contribution>, t: seq<Contribution>,
      o: seq<Contribution>, z: seq<Contribution>)
    ensures ContributionIds(d + e + m + t + o + z)
      == ContributionIds(d) + ContributionIds(e) + ContributionIds(m) + ContributionIds(t) + ContributionIds(o) + ContributionIds(z)
  {
    var id := (x: Contribution) => x.id;
    IdsAppend(d, e, id);
    IdsAppend(d + e, m, id);
    IdsAppend(d + e + m, t, id);
    IdsAppend(d + e + m + t, o, id);
    IdsAppend(d + e + m + t + o, z, id);
  }

  lemma SixNames(d: seq<string>, e: seq<string>, m: seq<string>, t: seq<string>, o: seq<string>, z: seq<string>)
    ensures Prefixed(d + e + (m + t + o) + z)
      == Prefixed(d) + Prefixed(e) + Prefixed(m) + Prefixed(t) + Prefixed(o) + Prefixed(z)
  {
    hide Prefixed;
    PrefixedAppend(d, e);
    PrefixedAppend(m, t);
    PrefixedAppend(m + t, o);
    PrefixedAppend(d + e, m + t + o);
    PrefixedAppend(d + e + (m + t + o), z);
  }

  lemma ThreeFactIds(m: seq<Fact>, t: seq<Fact>, o: seq<Fact>)
    ensures FactIds(m + t + o) == FactIds(m) + FactIds(t) + FactIds(o)
  {
    IdsAppend(m, t, (f: Fact) => f.id);
    IdsAppend(m + t, o, (f: Fact) => f.id);
  }

  lemma {:induction false} ApplicableDistinct(checks: seq<Fact>)
    requires Distinct(FactIds(checks))
    ensures Distinct(FactIds(Applicable(checks)))
    decreases |checks|
  {
    if checks != [] {
      var rest, last := checks[..|checks| - 1], checks[|checks| - 1];
      var ids := FactIds(checks);
      forall i, j | 0 <= i < j < |rest| ensures FactIds(rest)[i] != FactIds(rest)[j] { assert ids[i] != ids[j]; }
      ApplicableDistinct(rest);
      if !InState(last, CheckNotApplicable) {
        var before := Applicable(rest);
        forall i | 0 <= i < |before| ensures before[i].id != last.id {
          assert before[i] in rest;
          var k :| 0 <= k < |rest| && rest[k] == before[i];
          assert ids[k] != ids[|rest|];
        }
        var all := before + [last];
        forall i, j | 0 <= i < j < |all| ensures FactIds(all)[i] != FactIds(all)[j] {
          if j < |before| { assert FactIds(before)[i] != FactIds(before)[j]; }
        }
      } else { assert Applicable(rest) + [] == Applicable(rest); }
    }
  }

  lemma {:induction false} ContributingDistinct(s: Store)
    requires Distinct(FactIds(s.facts))
    ensures Distinct(FactIds(AllContributingChecks(s)))
  {
    hide Distinct, CategoryScore, ChecksOf, Applicable;
    var m, t, o := ContributingChecks(s, Maintainability), ContributingChecks(s, Testing), ContributingChecks(s,
      Tooling);
    ContributingMembers(s, Maintainability);
    ContributingMembers(s, Testing);
    ContributingMembers(s, Tooling);
    DifferentCategories(s, m, t, Testing);
    IdsAppend(m, t, (f: Fact) => f.id);
    NewIdsStayDistinct(FactIds(m), FactIds(t));
    DifferentCategories(s, m + t, o, Tooling);
    IdsAppend(m + t, o, (f: Fact) => f.id);
    NewIdsStayDistinct(FactIds(m + t), FactIds(o));
  }

  lemma {:induction false} ContributingMembers(s: Store, c: Category)
    requires Distinct(FactIds(s.facts))
    ensures forall f :: f in ContributingChecks(s, c) ==> f in s.facts && IsCheck(f, c)
    ensures Distinct(FactIds(ContributingChecks(s, c)))
  {
    hide CategoryScore, ChecksOf;
    ChecksMembers(s.facts, c);
    ChecksDistinct(s.facts, c);
    ApplicableDistinct(ChecksOf(s.facts, c));
  }

  lemma {:induction false} DifferentCategories(s: Store, a: seq<Fact>, b: seq<Fact>, c: Category)
    requires Distinct(FactIds(s.facts)) && Distinct(FactIds(b))
    requires forall f :: f in a ==> f in s.facts && !IsCheck(f, c)
    requires forall f :: f in b ==> f in s.facts && IsCheck(f, c)
    ensures NewIds(FactIds(a), FactIds(b))
  {
    hide Distinct;
    forall id | id in FactIds(b) ensures id !in FactIds(a) {
      var j :| 0 <= j < |b| && FactIds(b)[j] == id;
      assert b[j] in b;
      FoundByOwnId(s.facts, b[j]);
      if id in FactIds(a) {
        var i :| 0 <= i < |a| && FactIds(a)[i] == id;
        assert a[i] in a;
        FoundByOwnId(s.facts, a[i]);
      }
    }
  }

  lemma {:induction false} DistinctParts(a: seq<string>, b: seq<string>, c: seq<string>)
    requires Distinct(b) && Distinct(a + c)
    ensures Distinct(a + b + c) <==> !(exists id :: id in b && id in a + c)
  {
    var all := a + b + c;
    if exists id :: id in b && id in a + c {
      var id :| id in b && id in a + c;
      var j :| 0 <= j < |b| && b[j] == id;
      assert all[|a| + j] == id;
      var k :| 0 <= k < |a + c| && (a + c)[k] == id;
      assert all[if k < |a| then k else k + |b|] == id;
    } else {
      forall i, j | 0 <= i < j < |all| ensures all[i] != all[j] {
        var i', j' := if i < |a| then i else i - |b|, if j < |a| then j else j - |b|;
        if !(|a| <= i < |a| + |b|) && !(|a| <= j < |a| + |b|) { assert (a + c)[i'] == all[i] && (a + c)[j'] == all[j]; }
        else if (|a| <= i < |a| + |b|) && (|a| <= j < |a| + |b|) { assert b[i - |a|] == all[i] && b[j - |a|] == all[j]; }
        else if |a| <= i < |a| + |b| { assert all[i] in b && (a + c)[j'] == all[j]; }
        else { assert all[j] in b && (a + c)[i'] == all[i]; }
      }
    }
  }

  /** Contribution ids are unique exactly when no readiness check's fact id is one of the other
      contributions' names, such as `security-band` or `overall-ceiling`. */
  lemma {:induction false} ContributionsAreUniqueExactlyWithoutClash(s: Store)
    requires StackHealth(s).Some? && Distinct(FactIds(s.facts))
    ensures Distinct(ContributionIds(StackHealth(s).value.contributions)) <==> !NameClash(s,
      StackHealth(s).value.categories)
  {
    hide CategoryScore, OverallScore, StackHealth, AllContributingChecks;
    var categories := StackHealth(s).value.categories;
    ScoredCategories(s);
    ContributionNames(s);
    ContributingDistinct(s);
    var a := (if categories.dependencies.Available? then ["dependencies-band"] else []) + (if categories.security.Available? then ["security-band"] else []);
    var c := if OverallScore(s, categories).score.Available? then [CEILING] else [];
    FixedNamesAreDistinct(categories.dependencies.Available?, categories.security.Available?,
      OverallScore(s, categories).score.Available?);
    assert a + c == FixedNames(s, categories);
    DistinctParts(a, FactIds(AllContributingChecks(s)), c);
    PrefixKeepsDistinct(a + FactIds(AllContributingChecks(s)) + c);
  }

  lemma FixedNamesAreDistinct(d: bool, e: bool, o: bool)
    ensures Distinct((if d then ["dependencies-band"] else []) + (if e then ["security-band"] else []) + (if o then [CEILING] else []))
  {
    assert "dependencies-band"[0] == 'd' && "security-band"[0] == 's' && CEILING[0] == 'o';
  }

  // ----- acceptance of the whole report -----

  lemma {:induction false} ScoresOkWithAll(c: Context, s: Store)
    requires Scorable(c, s) && StackHealth(s).Some?
    ensures var r := ReportOf(c, s, StackHealth(s).value);
      && (forall x :: x in r.scores.contributions ==> ContributionOk(x, FactIds(r.facts), FindingIds(r.findings), EvidenceIds(r.evidence)))
      && ScoresAgree(r)
  {
    hide CategoryScore, OverallScore, StackHealth, ContributionOk, Tally, CheckFits, Distinct, Scorable;
    ScoredCategories(s);
    var scores := StackHealth(s).value;
    OverallScoreIsOk(c, s, scores.categories);
    CategoryScoreIsOk(c, s, Dependencies);
    CategoryScoreIsOk(c, s, Security);
    CategoryScoreIsOk(c, s, Maintainability);
    CategoryScoreIsOk(c, s, Testing);
    CategoryScoreIsOk(c, s, Tooling);
    MoreContributions(OverallScore(s, scores.categories).contributions, scores.contributions);
    forall k: Category ensures ScoreOk(scores.categories.Of(k), Some(k), s.facts,
      ContributionIds(scores.contributions), LimitationIds(s.limitations)) {
      assert RatedOk(c, s, Some(k), CategoryScore(s, k)) by { CategoryScoreIsOk(c, s, k); }
      assert forall x :: x in CategoryScore(s, k).contributions ==> x in scores.contributions by { assert Contributed(s, k) == CategoryScore(s, k).contributions; }
      MoreContributions(CategoryScore(s, k).contributions, scores.contributions);
    }
  }

  lemma MoreContributions(some: seq<Contribution>, all: seq<Contribution>)
    requires forall x :: x in some ==> x in all
    ensures forall id :: id in ContributionIds(some) ==> id in ContributionIds(all)
  {
    forall id | id in ContributionIds(some) ensures id in ContributionIds(all) {
      var i :| 0 <= i < |some| && ContributionIds(some)[i] == id;
      assert some[i] in all;
      var j :| 0 <= j < |all| && all[j] == some[i];
      assert ContributionIds(all)[j] == id;
    }
  }

  /** For arbitrary rules and consistent inputs: once the pipeline's three unchecked kinds of
      reference hold and the scorer does not throw, the checker accepts the whole report exactly when
      no contribution names clash. */
  lemma {:induction false} ReportIsAcceptedExactlyWithoutClash(c: Context, rules: RuleSet)
    requires ContextOk(c) && RuleSetOk(rules)
    requires UncheckedReferencesOk(c, Pipeline(c, rules).value) && StackHealth(Pipeline(c, rules).value).Some?
    ensures var s := Pipeline(c, rules).value;
      Accepts(ReportOf(c, s, StackHealth(s).value)) <==> !NameClash(s, StackHealth(s).value.categories)
  {
    hide StackHealth, AfterRecommendations, RuleSetOk, ScoresAgree, ContributionOk, NameClash, Accepts;
    var s := Pipeline(c, rules).value;
    PipelineIsSound(c, rules);
    assert Scorable(c, s);
    OnlyUncheckedReferencesCanFail(c, rules, StackHealth(s).value);
    ScoresOkWithAll(c, s);
    ContributionsAreUniqueExactlyWithoutClash(s);
  }

  lemma {:induction false} ReasonsAreEmptyExactly(s: Store, c: Category)
    ensures ReasonsFor(s, c) == [] <==>
      && UnknownLimitations(ChecksOf(s.facts, c)) == [] && FailedInspections(s) == []
      && (ChecksOf(s.facts, c) == [] ==> Related(s, c) == [])
  {
    hide ChecksOf, UnknownLimitations, FailedInspections, Related, Unrepeated, Sort;
    var checks := ChecksOf(s.facts, c);
    var listed := UnknownLimitations(checks) + LimitationIds(FailedInspections(s)) + (if checks == [] then LimitationIds(Related(s, c)) else []);
    var all := Unrepeated(listed);
    SortMembers(ByKey((id: string) => id), all);
    if ReasonsFor(s, c) != [] { assert ReasonsFor(s, c)[0] in listed; }
    if listed != [] { assert listed[0] in ReasonsFor(s, c); }
    assert listed == [] <==>
      UnknownLimitations(checks) == [] && LimitationIds(FailedInspections(s)) == [] && (checks == [] ==> LimitationIds(Related(s, c)) == []);
  }

  lemma KeptNothing(limitations: seq<Limitation>, keep: Limitation -> bool)
    ensures Filter(limitations, keep) == [] <==> forall l :: l in limitations ==> !keep(l)
  {
    var kept := Filter(limitations, keep);
    if kept != [] { assert kept[0] in kept; }
  }

  lemma {:induction false} UnknownChecksGiveReasons(checks: seq<Fact>)
    requires forall f :: f in checks && InState(f, CheckUnknown) ==> f.check.value.limitationIds != []
    ensures CountState(checks, CheckUnknown) > 0 ==> UnknownLimitations(checks) != []
  {
    hide UnknownLimitations, CountState;
    CountedIsMember(checks, CheckUnknown);
    if CountState(checks, CheckUnknown) > 0 {
      var f :| f in checks && InState(f, CheckUnknown);
      UnknownGivesReason(checks, f);
      assert f.check.value.limitationIds[0] in UnknownLimitations(checks);
    }
  }

  lemma UnknownGivesReason(checks: seq<Fact>, f: Fact)
    requires f in checks && InState(f, CheckUnknown)
    ensures forall id :: id in f.check.value.limitationIds ==> id in UnknownLimitations(checks)
  {
    var lists := seq(|checks|, i requires 0 <= i < |checks| => if InState(checks[i], CheckUnknown) then checks[i].check.value.limitationIds else []);
    var k :| 0 <= k < |checks| && checks[k] == f;
    assert lists[k] == f.check.value.limitationIds;
  }

  /** The scorer throws exactly when some category has no check and nothing explains why: no partial
      failure and no limitation of the category (an unknown check always carries a limitation). */
  lemma {:induction false} ScorerThrowsExactlyWithoutExplanation(s: Store, c: Category)
    requires forall f :: f in s.facts && InState(f, CheckUnknown) ==> f.check.value.limitationIds != []
    ensures CategoryScore(s, c).Refused? <==>
      && (forall f :: f in s.facts ==> !IsCheck(f, c))
      && (forall l :: l in s.limitations ==> !l.partialFailure && c !in l.categories)
  {
    hide BandScore, ReadinessScore, ChecksOf, Applicable, CountState, ReasonsFor, UnknownLimitations;
    var checks := ChecksOf(s.facts, c);
    ChecksMembers(s.facts, c);
    ReasonsAreEmptyExactly(s, c);
    UnknownChecksGiveReasons(checks);
    KeptNothing(s.limitations, (l: Limitation) => l.partialFailure && INSPECTION_RULE in l.ruleIds);
    KeptNothing(s.limitations, (l: Limitation) => c in l.categories || l.partialFailure);
    if checks == [] { NoChecksNoUnknown(); } else { assert checks[0] in checks && IsCheck(checks[0], c); }
  }

  lemma NoChecksNoUnknown()
    ensures UnknownLimitations([]) == []
  {
  }
}
