/** The numbers themselves: every score is a percentage accounted for by its deductions, the overall
    score is capped, and improving a check never lowers any score. */
module StackHealthScores {
  import opened Text
  import opened ReportContract
  import opened RulePipelineModel
  import opened AdvisoryGroups
  import opened StackHealthModel
  import opened StackHealthSafety
  import opened StackHealthReport

  // ----- deductions -----

  function Deducted(contributions: seq<Contribution>): real {
    if contributions == [] then 0.0 else Deducted(contributions[..|contributions| - 1]) + contributions[|contributions| - 1].points
  }

  lemma OneMoreWeight(n: int, weight: real)
    ensures (n + 1) as real * weight == n as real * weight + weight
  {
    assert (n + 1) as real == n as real + 1.0;
    assert (n as real + 1.0) * weight == n as real * weight + 1.0 * weight;
  }

  lemma NothingDeducted(weight: real)
    ensures Deducted([]) == 0.0 && 0 as real * weight == 0.0
  {
  }

  lemma DeductedOneMore(contributions: seq<Contribution>)
    requires contributions != []
    ensures Deducted(contributions) == Deducted(contributions[..|contributions| - 1]) + contributions[|contributions| - 1].points
  {
  }

  lemma {:induction false} ReadinessDeductions(c: Category, applicable: seq<Fact>, weight: real)
    ensures Deducted(ReadinessContributions(c, applicable, weight))
      == (|applicable| - CountState(applicable, CheckPass)) as real * weight
    decreases |applicable|
  {
    hide Deducted, EvidenceOf;
    if applicable == [] { NothingDeducted(weight); }
    else {
      var rest, last := applicable[..|applicable| - 1], applicable[|applicable| - 1];
      var all := ReadinessContributions(c, applicable, weight);
      assert all[..|all| - 1] == ReadinessContributions(c, rest, weight);
      ReadinessDeductions(c, rest, weight);
      OneMoreWeight(|rest| - CountState(rest, CheckPass), weight);
      DeductedOneMore(all);
    }
  }

  lemma ShareArithmetic(part: nat, whole: nat)
    requires part <= whole && whole > 0
    ensures 0.0 <= Share(part, whole) <= 100.0
    ensures (whole - part) as real * (100.0 / whole as real) == 100.0 - Share(part, whole)
  {
    var p, w := part as real, whole as real;
    assert p <= w && w > 0.0;
    assert 100.0 * p <= 100.0 * w;
    assert Share(part, whole) * w == 100.0 * p;
    assert (100.0 / w) * w == 100.0;
    assert (w - p) * (100.0 / w) * w == (w - p) * 100.0;
    assert (100.0 - Share(part, whole)) * w == 100.0 * w - 100.0 * p;
  }

  /** An available category score is a percentage, and its deductions add up to what is missing. */
  lemma {:induction false} DeductionsAccountForCategories(s: Store, c: Category)
    requires CategoryScore(s, c).Rated? && CategoryScore(s, c).score.Available?
    ensures 0.0 <= CategoryScore(s, c).score.value <= 100.0
    ensures Deducted(CategoryScore(s, c).contributions) == 100.0 - CategoryScore(s, c).score.value
    ensures forall x :: x in CategoryScore(s, c).contributions ==> 0.0 <= x.points <= 100.0
  {
    hide CountState, ChecksOf, ReasonsFor, FailedInspections, BandOf, Grouped, AdvisoryIds, EvidenceOf, BandFindings,
      Applicable, Share;
    var checks := ChecksOf(s.facts, c);
    var applicable := Applicable(checks);
    ApplicableCounts(checks);
    var rated := CategoryScore(s, c);
    if UsesBand(c) {
      OneDeduction(rated.contributions[0]);
      assert rated.contributions == [rated.contributions[0]];
    } else {
      ReadinessDeductions(c, applicable, 100.0 / |applicable| as real);
      ShareArithmetic(CountState(applicable, CheckPass), |applicable|);
      WeightIsAPercentage(|applicable|);
    }
  }

  lemma OneDeduction(x: Contribution)
    ensures Deducted([x]) == x.points
  {
    assert [x][..0] == [];
  }

  lemma WeightIsAPercentage(n: nat)
    requires n > 0
    ensures 0.0 <= 100.0 / n as real <= 100.0
  {
    assert (100.0 / n as real) * n as real == 100.0;
    assert n as real >= 1.0;
  }

  // ----- the overall score -----

  lemma {:induction false} SumBounds(values: seq<real>, low: real, high: real)
    requires forall v :: v in values ==> low <= v <= high
    ensures low * |values| as real <= Sum(values) <= high * |values| as real
    decreases |values|
  {
    if values != [] {
      var rest := values[..|values| - 1];
      assert forall v :: v in rest ==> v in values;
      SumBounds(rest, low, high);
      assert values[|values| - 1] in values;
      assert |values| as real == |rest| as real + 1.0;
      assert low * |values| as real == low * |rest| as real + low;
      assert high * |values| as real == high * |rest| as real + high;
    }
  }

  lemma MeanBounds(values: seq<real>)
    requires values != [] && forall v :: v in values ==> 0.0 <= v <= 100.0
    ensures 0.0 <= Mean(values) <= 100.0
  {
    SumBounds(values, 0.0, 100.0);
    assert Mean(values) * |values| as real == Sum(values);
  }

  lemma {:induction false} AvailableAreScores(categories: Categories, order: seq<Category>)
    ensures forall v :: v in AvailableValues(categories, order) ==>
      exists c: Category :: c in order && categories.Of(c).Available? && v == categories.Of(c).value
    decreases |order|
  {
    if order != [] {
      var rest, last := order[..|order| - 1], order[|order| - 1];
      AvailableAreScores(categories, rest);
      assert order == rest + [last];
      var before := AvailableValues(categories, rest);
      forall v | v in AvailableValues(categories, order) ensures exists c: Category :: c in order && categories.Of(c).Available? && v == categories.Of(c).value {
        if v in before {
          var c: Category :| c in rest && categories.Of(c).Available? && v == categories.Of(c).value;
          assert c in order;
        } else { assert last in order; }
      }
    }
  }

  /** All scores are percentages; the overall score is at most the mean of the applicable categories
      and at most the dependency and security scores, and its own deduction is the distance between
      the mean and the ceiling that was hit. */
  lemma {:induction false} OverallIsCapped(s: Store)
    requires StackHealth(s).Some? && StackHealth(s).value.overall.Available?
    ensures var scores := StackHealth(s).value;
      var values := AvailableValues(scores.categories, ORDER);
      && (forall c: Category :: scores.categories.Of(c).Available? ==> 0.0 <= scores.categories.Of(c).value <= 100.0)
      && values != [] && 0.0 <= scores.overall.value <= Mean(values) <= 100.0
      && (scores.categories.dependencies.Available? ==> scores.overall.value <= scores.categories.dependencies.value)
      && (scores.categories.security.Available? ==> scores.overall.value <= scores.categories.security.value)
      && (scores.overall.value == Mean(values)
          || (scores.categories.dependencies.Available? && scores.overall.value == scores.categories.dependencies.value)
          || (scores.categories.security.Available? && scores.overall.value == scores.categories.security.value))
      && Deducted(OverallScore(s, scores.categories).contributions) == Mean(values) - scores.overall.value
  {
    hide CategoryScore, StackHealth, AvailableValues, Mean, CountState, AllChecks, EvidenceOf, InsufficientReasons,
      Sort, Unrepeated;
    ScoredCategories(s);
    var categories := StackHealth(s).value.categories;
    var values := AvailableValues(categories, ORDER);
    forall c: Category | categories.Of(c).Available? ensures 0.0 <= categories.Of(c).value <= 100.0 { DeductionsAccountForCategories(s, c); }
    AvailableAreScores(categories, ORDER);
    var overall := OverallScore(s, categories);
    assert values != [] && !SomeInsufficient(categories);
    MeanBounds(values);
    assert categories.dependencies == categories.Of(Dependencies) && categories.security == categories.Of(Security);
    assert overall.contributions == [overall.contributions[0]];
    OneDeduction(overall.contributions[0]);
  }

  // ----- improving a check -----

  predicate Milder(before: Option<Band>, after: Option<Band>) {
    match before
    case None => after == None
    case Some(b) => after == None || BandValue(after.value) >= BandValue(b)
  }

  /** The same fact, except that a failed check may now pass and its severity may be milder. */
  predicate Improved(before: Fact, after: Fact) {
    && before.id == after.id && before.check.Some? == after.check.Some?
    && (before.check.Some? ==>
          && before.check.value.category == after.check.value.category
          && (before.check.value.state == after.check.value.state || (before.check.value.state == CheckFail && after.check.value.state == CheckPass))
          && Milder(before.check.value.severity, after.check.value.severity))
  }

  predicate ImprovedAll(before: seq<Fact>, after: seq<Fact>) {
    |before| == |after| && forall i :: 0 <= i < |before| ==> Improved(before[i], after[i])
  }

  lemma {:induction false} ImprovedOfCategory(a: seq<Fact>, b: seq<Fact>, c: Category)
    requires ImprovedAll(a, b)
    ensures ImprovedAll(OfCategory(a, c), OfCategory(b, c))
    decreases |a|
  {
    if a != [] {
      assert forall i :: 0 <= i < |a[1..]| ==> a[1..][i] == a[i + 1] && b[1..][i] == b[i + 1];
      ImprovedOfCategory(a[1..], b[1..], c);
    }
  }

  lemma {:induction false} ImprovedInsert(x: Fact, y: Fact, a: seq<Fact>, b: seq<Fact>)
    requires Improved(x, y) && ImprovedAll(a, b)
    ensures ImprovedAll(Insert(ByKey((f: Fact) => f.id), x, a), Insert(ByKey((f: Fact) => f.id), y, b))
    decreases |a|
  {
    var before := ByKey((f: Fact) => f.id);
    if a == [] { return; }
    assert Improved(a[0], b[0]);
    if !before(x, a[0]) {
      assert forall i :: 0 <= i < |a[1..]| ==> a[1..][i] == a[i + 1] && b[1..][i] == b[i + 1];
      ImprovedInsert(x, y, a[1..], b[1..]);
    }
  }

  lemma {:induction false} ImprovedSort(a: seq<Fact>, b: seq<Fact>)
    requires ImprovedAll(a, b)
    ensures ImprovedAll(Sort(ByKey((f: Fact) => f.id), a), Sort(ByKey((f: Fact) => f.id), b))
    decreases |a|
  {
    hide Insert, Improved;
    if a != [] {
      assert forall i :: 0 <= i < |a[1..]| ==> a[1..][i] == a[i + 1] && b[1..][i] == b[i + 1];
      ImprovedSort(a[1..], b[1..]);
      ImprovedInsert(a[0], b[0], Sort(ByKey((f: Fact) => f.id), a[1..]), Sort(ByKey((f: Fact) => f.id), b[1..]));
    }
  }

  lemma ImprovedPrefix(a: seq<Fact>, b: seq<Fact>)
    requires ImprovedAll(a, b) && a != []
    ensures ImprovedAll(a[..|a| - 1], b[..|b| - 1])
  {
  }

  lemma {:induction false} ImprovedCounts(a: seq<Fact>, b: seq<Fact>)
    requires ImprovedAll(a, b)
    ensures CountState(a, CheckPass) <= CountState(b, CheckPass)
    ensures CountState(b, CheckFail) <= CountState(a, CheckFail)
    ensures CountState(a, CheckUnknown) == CountState(b, CheckUnknown)
    ensures CountState(a, CheckNotApplicable) == CountState(b, CheckNotApplicable)
    decreases |a|
  {
    if a != [] {
      ImprovedPrefix(a, b);
      ImprovedCounts(a[..|a| - 1], b[..|b| - 1]);
      assert Improved(a[|a| - 1], b[|b| - 1]);
    }
  }

  lemma {:induction false} ImprovedApplicable(a: seq<Fact>, b: seq<Fact>)
    requires ImprovedAll(a, b)
    ensures ImprovedAll(Applicable(a), Applicable(b))
    decreases |a|
  {
    if a != [] {
      ImprovedPrefix(a, b);
      ImprovedApplicable(a[..|a| - 1], b[..|b| - 1]);
      assert Improved(a[|a| - 1], b[|b| - 1]);
    }
  }

  lemma {:induction false} ImprovedBand(a: seq<Fact>, b: seq<Fact>, band: Band)
    requires ImprovedAll(a, b)
    ensures BandValue(LowerBand(a, band)) <= BandValue(LowerBand(b, band))
    decreases |a|
  {
    hide BandValue;
    if a != [] {
      ImprovedPrefix(a, b);
      ImprovedBand(a[..|a| - 1], b[..|b| - 1], band);
      assert Improved(a[|a| - 1], b[|b| - 1]);
    }
  }

  lemma ShareGrows(part: nat, part': nat, whole: nat)
    requires part <= part' && whole > 0
    ensures Share(part, whole) <= Share(part', whole)
  {
    DivideAlike(100.0 * part as real, 100.0 * part' as real, whole as real);
  }

  /** Improving checks keeps a rated category rated, and never lowers its score. */
  lemma {:induction false} CategoryScoresNeverDrop(s: Store, s': Store, c: Category)
    requires ImprovedAll(s.facts, s'.facts) && s'.limitations == s.limitations
    requires CategoryScore(s, c).Rated? && !CategoryScore(s, c).score.Insufficient?
    ensures CategoryScore(s', c).Rated? && !CategoryScore(s', c).score.Insufficient?
    ensures CategoryScore(s, c).score.Available? <==> CategoryScore(s', c).score.Available?
    ensures CategoryScore(s, c).score.Available? ==> CategoryScore(s, c).score.value <= CategoryScore(s', c).score.value
  {
    hide CountState, LowerBand, ReasonsFor, FailedInspections, Grouped, AdvisoryIds, EvidenceOf, BandFindings,
      Applicable, Share, ImprovedAll, Sort, OfCategory;
    var a, b := ChecksOf(s.facts, c), ChecksOf(s'.facts, c);
    ImprovedOfCategory(s.facts, s'.facts, c);
    ImprovedSort(OfCategory(s.facts, c), OfCategory(s'.facts, c));
    ImprovedCounts(a, b);
    ImprovedApplicable(a, b);
    ImprovedCounts(Applicable(a), Applicable(b));
    ImprovedBand(Applicable(a), Applicable(b), NoRisk);
    assert FailedInspections(s) == FailedInspections(s') by { SameInspections(s, s'); }
    SameLength(a, b);
    SameLength(Applicable(a), Applicable(b));
    if a != [] && Applicable(a) != [] { ShareGrows(CountState(a, CheckPass), CountState(b, CheckPass), |Applicable(a)|); }
  }

  lemma SameInspections(s: Store, s': Store)
    requires s'.limitations == s.limitations
    ensures FailedInspections(s) == FailedInspections(s')
  {
    KeepAlike(s.limitations, (l: Limitation) => l.partialFailure && INSPECTION_RULE in l.ruleIds,
      (l: Limitation) => l.partialFailure && INSPECTION_RULE in l.ruleIds);
  }

  lemma {:induction false} KeepAlike(limitations: seq<Limitation>, f: Limitation -> bool, g: Limitation -> bool)
    requires forall l :: f(l) == g(l)
    ensures Filter(limitations, f) == Filter(limitations, g)
    decreases |limitations|
  {
    if limitations != [] { KeepAlike(limitations[1..], f, g); }
  }

  lemma SameLength(a: seq<Fact>, b: seq<Fact>)
    requires ImprovedAll(a, b)
    ensures |a| == |b|
  {
  }

  /** Every available value is at least as high, and the same categories are available. */
  ghost predicate NoLower(before: Categories, after: Categories) {
    forall c: Category ::
      && (before.Of(c).Available? <==> after.Of(c).Available?)
      && !after.Of(c).Insufficient?
      && (before.Of(c).Available? ==> before.Of(c).value <= after.Of(c).value)
  }

  lemma {:induction false} ValuesGrow(before: Categories, after: Categories, order: seq<Category>)
    requires NoLower(before, after)
    ensures |AvailableValues(before, order)| == |AvailableValues(after, order)|
    ensures Sum(AvailableValues(before, order)) <= Sum(AvailableValues(after, order))
    decreases |order|
  {
    if order != [] {
      var rest, last := order[..|order| - 1], order[|order| - 1];
      ValuesGrow(before, after, rest);
      assert before.Of(last).Available? <==> after.Of(last).Available?;
      if before.Of(last).Available? {
        SumOneMore(AvailableValues(before, rest), before.Of(last).value);
        SumOneMore(AvailableValues(after, rest), after.Of(last).value);
      } else {
        assert AvailableValues(before, rest) + [] == AvailableValues(before, rest);
        assert AvailableValues(after, rest) + [] == AvailableValues(after, rest);
      }
    }
  }

  lemma SumOneMore(values: seq<real>, v: real)
    ensures Sum(values + [v]) == Sum(values) + v
  {
    assert (values + [v])[..|values|] == values;
  }

  lemma DivideBack(x: real, n: real)
    requires n > 0.0
    ensures (x / n) * n == x
  {
  }

  lemma Product(x: real, n: real)
    requires x > 0.0 && n > 0.0
    ensures x * n > 0.0
  {
  }

  lemma DivideAlike(x: real, y: real, n: real)
    requires x <= y && n > 0.0
    ensures x / n <= y / n
  {
    var p, q := x / n, y / n;
    DivideBack(x, n);
    DivideBack(y, n);
    assert (p - q) * n == p * n - q * n;
    if p > q { Product(p - q, n); }
  }

  lemma MeanGrows(a: seq<real>, b: seq<real>)
    requires a != [] && |a| == |b| && Sum(a) <= Sum(b)
    ensures Mean(a) <= Mean(b)
  {
    DivideAlike(Sum(a), Sum(b), |a| as real);
  }

  /** Improving any checks, however many at once, never lowers a score: an available overall score
      stays available and does not drop, and neither does any category's. */
  lemma {:induction false} ImprovingNeverLowersAScore(s: Store, s': Store)
    requires ImprovedAll(s.facts, s'.facts) && s'.limitations == s.limitations
    requires StackHealth(s).Some? && StackHealth(s).value.overall.Available?
    ensures StackHealth(s').Some? && StackHealth(s').value.overall.Available?
    ensures NoLower(StackHealth(s).value.categories, StackHealth(s').value.categories)
    ensures StackHealth(s).value.overall.value <= StackHealth(s').value.overall.value
  {
    hide CategoryScore, AvailableValues, Mean, CountState, AllChecks, EvidenceOf, InsufficientReasons, ImprovedAll,
      Sort, Unrepeated, NoLower;
    ScoredCategories(s);
    var before := StackHealth(s).value.categories;
    assert AvailableValues(before, ORDER) != [] && !SomeInsufficient(before);
    forall c: Category
      ensures CategoryScore(s', c).Rated? && !CategoryScore(s', c).score.Insufficient?
      ensures before.Of(c).Available? <==> CategoryScore(s', c).score.Available?
      ensures before.Of(c).Available? ==> before.Of(c).value <= CategoryScore(s', c).score.value
    {
      assert !before.Of(c).Insufficient?;
      CategoryScoresNeverDrop(s, s', c);
    }
    var after := Categories(CategoryScore(s', Dependencies).score, CategoryScore(s', Security).score, CategoryScore(s', Maintainability).score,
      CategoryScore(s', Testing).score, CategoryScore(s', Tooling).score);
    CompareCategories(s', before, after);
    ValuesGrow(before, after, ORDER);
    MeanGrows(AvailableValues(before, ORDER), AvailableValues(after, ORDER));
    NoneInsufficient(before, after);
    LowerGrows(before, after, Mean(AvailableValues(before, ORDER)), Mean(AvailableValues(after, ORDER)));
  }

  lemma CompareCategories(s': Store, before: Categories, after: Categories)
    requires forall c: Category :: CategoryScore(s', c).Rated? && !CategoryScore(s', c).score.Insufficient?
    requires forall c: Category ::
      (before.Of(c).Available? <==> CategoryScore(s', c).score.Available?)
      && (before.Of(c).Available? ==> before.Of(c).value <= CategoryScore(s', c).score.value)
    requires after == Categories(CategoryScore(s', Dependencies).score, CategoryScore(s', Security).score, CategoryScore(s', Maintainability).score,
      CategoryScore(s', Testing).score, CategoryScore(s', Tooling).score)
    ensures NoLower(before, after)
  {
    hide CategoryScore;
    forall c: Category ensures after.Of(c) == CategoryScore(s', c).score {
      match c {
        case Dependencies =>
        case Security =>
        case Maintainability =>
        case Testing =>
        case Tooling =>
      }
    }
  }

  lemma NoneInsufficient(before: Categories, after: Categories)
    requires NoLower(before, after)
    ensures !SomeInsufficient(after)
  {
  }

  lemma LowerGrows(before: Categories, after: Categories, m: real, m': real)
    requires NoLower(before, after) && m <= m'
    ensures Lower(Lower(m, before.dependencies), before.security) <= Lower(Lower(m', after.dependencies),
      after.security)
  {
    assert before.Of(Dependencies) == before.dependencies && after.Of(Dependencies) == after.dependencies;
    assert before.Of(Security) == before.security && after.Of(Security) == after.security;
  }
}
