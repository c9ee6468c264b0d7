/** What each package's rules are shown, and what becomes of everything they emit: a package sees exactly
    its own entities and the shared ones, in order, under their local names; and a scoped rule reports
    exactly what the packages' runs report, in order, under whole-report names. */
module WorkspaceViews {
  import opened Text
  import opened ReportContract
  import opened RulePipelineModel
  import opened WorkspaceScoping

  // ----- names -----

  /** The package calls `whole` by the name `local`. */
  predicate KnownAs(s: Scope, whole: string, local: string) {
    if StartsWith(whole, s.prefix) then whole == s.prefix + local else local == whole
  }

  predicate AllKnownAs(s: Scope, wholes: seq<string>, locals: seq<string>) {
    |locals| == |wholes| && forall i :: 0 <= i < |wholes| ==> KnownAs(s, wholes[i], locals[i])
  }

  /** External evidence and limitations of no package keep their names everywhere. */
  predicate IsGlobal(w: Whole, id: string) {
    || (exists e :: e in w.evidence && e.external.Some? && e.id == id)
    || (exists l :: l in w.limitations && !StartsWith(l.id, "pkg-") && l.id == id)
  }

  /** The report calls the package's `local` by the name `whole`. */
  predicate NamedAs(hash: Rename, w: Whole, path: string, local: string, whole: string) {
    if IsGlobal(w, local) then whole == local else whole == "pkg-" + hash(path) + "-" + local
  }

  predicate AllNamedAs(hash: Rename, w: Whole, path: string, locals: seq<string>, wholes: seq<string>) {
    |locals| == |wholes| && forall i :: 0 <= i < |wholes| ==> NamedAs(hash, w, path, locals[i], wholes[i])
  }

  // ----- entities under other names -----

  type Naming = (string, string) -> bool

  predicate Each(name: Naming, a: seq<string>, b: seq<string>) {
    |a| == |b| && forall i :: 0 <= i < |a| ==> name(a[i], b[i])
  }

  predicate SameFact(name: Naming, x: Fact, y: Fact) {
    && name(x.id, y.id) && y.rule == x.rule && y.requirementIds == x.requirementIds
    && Each(name, x.evidenceIds, y.evidenceIds)
    && (match x.check
        case None => y.check == None
        case Some(c) =>
          && y.check.Some? && Each(name, c.limitationIds, y.check.value.limitationIds)
          && y.check.value == c.(limitationIds := y.check.value.limitationIds))
  }

  predicate SameCandidate(name: Naming, x: Candidate, y: Candidate) {
    && name(x.id, y.id) && Each(name, x.evidenceIds, y.evidenceIds) && Each(name, x.factIds, y.factIds)
    && Each(name, x.limitationIds, y.limitationIds)
    && (match x.confidence
        case None => y.confidence == None
        case Some(ids) => y.confidence.Some? && Each(name, ids, y.confidence.value))
    && y.category == x.category && y.rule == x.rule && y.requirementIds == x.requirementIds && y.advisory == x.advisory
  }

  predicate SameFinding(name: Naming, x: Finding, y: Finding) {
    && SameCandidate(name, x.base, y.base) && y.priority.rule == x.priority.rule
    && |y.priority.factors| == |x.priority.factors|
    && forall i :: 0 <= i < |x.priority.factors| ==> Each(name, x.priority.factors[i], y.priority.factors[i])
  }

  predicate SameRecommendation(name: Naming, x: Recommendation, y: Recommendation) {
    && name(x.id, y.id) && Each(name, x.findingIds, y.findingIds) && Each(name, x.evidenceIds, y.evidenceIds)
    && (match x.confidence
        case None => y.confidence == None
        case Some(ids) => y.confidence.Some? && Each(name, ids, y.confidence.value))
    && y.rule == x.rule && y.requirementIds == x.requirementIds
  }

  predicate SameLimitation(name: Naming, x: Limitation, y: Limitation) {
    name(x.id, y.id) && y == x.(id := y.id)
  }

  predicate SameEvidence(name: Naming, x: Evidence, y: Evidence) {
    name(x.id, y.id) && y == x.(id := y.id)
  }

  lemma RenamedIsSame(name: Naming, f: Rename)
    requires forall id :: name(id, f(id))
    ensures forall x :: SameFact(name, x, RenameFact(x, f))
    ensures forall x :: SameCandidate(name, x, RenameCandidate(x, f))
    ensures forall x :: SameRecommendation(name, x, RenameRecommendation(x, f))
    ensures forall x :: SameLimitation(name, x, RenameLimitation(x, f))
    ensures forall x :: SameEvidence(name, x, RenameEvidence(x, f))
  {
  }

  lemma RenamedFindingIsSame(name: Naming, f: Rename)
    requires forall id :: name(id, f(id))
    ensures forall x :: SameFinding(name, x, RenameFinding(x, f))
  {
    hide SameCandidate, RenameCandidate;
    RenamedIsSame(name, f);
  }

  // ----- what a package sees -----

  /** `shown` holds exactly the elements worth keeping, in order, each as `same` allows. */
  predicate Picked<T(!new), U(!new)>(all: seq<T>, keep: T -> bool, same: (T, U) -> bool, shown: seq<U>)
    decreases |all|
  {
    if all == [] then shown == []
    else if keep(all[0]) then shown != [] && same(all[0], shown[0]) && Picked(all[1..], keep, same, shown[1..])
    else Picked(all[1..], keep, same, shown)
  }

  lemma {:induction false} FilterPicks<T(!new), U(!new)>(all: seq<T>, keep: T -> bool, image: T -> U,
      same: (T, U) -> bool)
    requires forall x :: same(x, image(x))
    ensures Picked(all, keep, same, Mapped(Filter(all, keep), image))
    decreases |all|
  {
    if all == [] { return; }
    var rest, shown := Mapped(Filter(all[1..], keep), image), Mapped(Filter(all, keep), image);
    FilterPicks(all[1..], keep, image, same);
    if keep(all[0]) { assert shown[0] == image(all[0]) && shown[1..] == rest; }
    else { assert shown == rest; }
  }

  function NameIn(s: Scope): Naming {
    (whole, local) => KnownAs(s, whole, local)
  }

  /** The package's own facts, `own`, and those of them that the rule is given. */
  ghost predicate SeesFacts(s: Scope, w: Whole, own: seq<Fact>, keeps: Fact -> bool, given: seq<Fact>) {
    && Picked(w.facts, (f: Fact) => StartsWith(f.id, s.prefix), (x, y) => SameFact(NameIn(s), x, y), own)
    && Picked(own, keeps, (x, y) => x == y, given)
  }

  ghost predicate Sees(s: Scope, w: Whole, keeps: Fact -> bool, view: Whole) {
    && Picked(w.evidence, (e: Evidence) => e.external.Some? || StartsWith(e.id, s.prefix),
         (x, y) => SameEvidence(NameIn(s), x, y), view.evidence)
    && Picked(w.limitations, (l: Limitation) => !StartsWith(l.id, "pkg-") || StartsWith(l.id, s.prefix),
         (x, y) => SameLimitation(NameIn(s), x, y), view.limitations)
    && Picked(w.findings, (f: Finding) => StartsWith(f.base.id, s.prefix), (x, y) => SameFinding(NameIn(s), x, y),
         view.findings)
    && exists own :: SeesFacts(s, w, own, keeps, view.facts)
  }

  lemma InwardNames(s: Scope)
    ensures forall id :: NameIn(s)(id, Inward(s)(id))
  {
    forall id ensures NameIn(s)(id, Inward(s)(id)) {
      if StartsWith(id, s.prefix) { assert id == s.prefix + id[|s.prefix|..]; }
    }
  }

  /** A package is shown exactly its own entities and the shared ones, in the report's order, each under
      the name the package knows it by; a finding rule is given those of its facts that `keeps` keeps. */
  lemma {:induction false} PackageSeesItsOwn(s: Scope, w: Whole, keeps: Fact -> bool)
    ensures var view := LocalView(s, w); Sees(s, w, keeps, view.(facts := Filter(view.facts, keeps)))
  {
    hide Picked, SameFact, SameFinding, SameLimitation, SameEvidence, RenameFact, RenameFinding, RenameLimitation,
      RenameEvidence, KnownAs;
    InwardNames(s);
    RenamedIsSame(NameIn(s), Inward(s));
    RenamedFindingIsSame(NameIn(s), Inward(s));
    FilterPicks(w.evidence, (e: Evidence) => e.external.Some? || StartsWith(e.id, s.prefix),
      (e: Evidence) => RenameEvidence(e, Inward(s)), (x: Evidence, y: Evidence) => SameEvidence(NameIn(s), x, y));
    FilterPicks(w.limitations, (l: Limitation) => !StartsWith(l.id, "pkg-") || StartsWith(l.id, s.prefix),
      (l: Limitation) => RenameLimitation(l, Inward(s)), (x: Limitation, y: Limitation) => SameLimitation(NameIn(s), x,
        y));
    FilterPicks(w.findings, (f: Finding) => StartsWith(f.base.id, s.prefix), (f: Finding) => RenameFinding(f, Inward(s)),
      (x: Finding, y: Finding) => SameFinding(NameIn(s), x, y));
    FilterPicks(w.facts, (f: Fact) => StartsWith(f.id, s.prefix), (f: Fact) => RenameFact(f, Inward(s)),
      (x: Fact, y: Fact) => SameFact(NameIn(s), x, y));
    var own := LocalView(s, w).facts;
    FilterPicks(own, keeps, (f: Fact) => f, (x: Fact, y: Fact) => x == y);
    assert Mapped(Filter(own, keeps), (f: Fact) => f) == Filter(own, keeps);
    assert SeesFacts(s, w, own, keeps, Filter(own, keeps));
  }

  // ----- what becomes of what they emit -----

  /** One package's run: it throws, or reports entities and limitations. */
  datatype Step<T> = Stop(invariantError: bool) | Give(items: seq<T>, limitations: seq<Limitation>)

  function Together<T>(parts: seq<seq<T>>): seq<T> {
    if parts == [] then [] else Together(parts[..|parts| - 1]) + parts[|parts| - 1]
  }

  /** One package's part of the total, under whole-report names. */
  predicate PartOf<T>(given: Step<T>, same: (Naming, T, T) -> bool, name: Naming, part: seq<T>, extra: seq<Limitation>)
  {
    && given.Give? && |part| == |given.items| && |extra| == |given.limitations|
    && (forall i :: 0 <= i < |part| ==> same(name, given.items[i], part[i]))
    && (forall i :: 0 <= i < |extra| ==> SameLimitation(name, given.limitations[i], extra[i]))
  }

  predicate GatheredBy<T(==)>(given: seq<Step<T>>, same: (Naming, T, T) -> bool, names: seq<Naming>, items: seq<T>,
      limitations: seq<Limitation>, parts: seq<seq<T>>, extras: seq<seq<Limitation>>)
  {
    && |parts| == |extras| == |names| == |given| && items == Together(parts) && limitations == Together(extras)
    && forall i :: 0 <= i < |given| ==> PartOf(given[i], same, names[i], parts[i], extras[i])
  }

  /** The total: everything every package reported, package by package; or the first throw. */
  ghost predicate Gathered<T(!new)>(given: seq<Step<T>>, same: (Naming, T, T) -> bool, names: seq<Naming>,
      total: Step<T>)
  {
    match total
    case Stop(e) => exists i :: StopsAt(given, i, e)
    case Give(items, limitations) =>
      exists parts, extras :: GatheredBy(given, same, names, items, limitations, parts, extras)
  }

  predicate StopsAt<T>(given: seq<Step<T>>, i: int, e: bool) {
    0 <= i < |given| && given[i].Stop? && given[i].invariantError == e && forall j :: 0 <= j < i ==> given[j].Give?
  }

  lemma {:induction false} GatherMore<T(!new)>(given: seq<Step<T>>, same: (Naming, T, T) -> bool, names: seq<Naming>,
      before: Step<T>, last: Step<T>, name: Naming, part: seq<T>, extra: seq<Limitation>)
    requires |names| == |given| && Gathered(given, same, names, before)
    requires before.Give? && last.Give? ==> PartOf(last, same, name, part, extra)
    ensures Gathered(given + [last], same, names + [name],
      if before.Stop? then before else if last.Stop? then last
      else Give(before.items + part, before.limitations + extra))
  {
    hide PartOf;
    var n, given', names' := |given|, given + [last], names + [name];
    if before.Stop? {
      var i :| StopsAt(given, i, before.invariantError);
      assert StopsAt(given', i, before.invariantError);
      return;
    }
    var parts, extras :| GatheredBy(given, same, names, before.items, before.limitations, parts, extras);
    if last.Stop? {
      forall j | 0 <= j < n ensures given'[j].Give? { GivesPart(given[j], same, names[j], parts[j], extras[j]); }
      assert StopsAt(given', n, last.invariantError);
      return;
    }
    var parts', extras' := parts + [part], extras + [extra];
    assert parts'[..n] == parts && extras'[..n] == extras;
    forall i | 0 <= i < n + 1 ensures PartOf(given'[i], same, names'[i], parts'[i], extras'[i]) {
      if i < n { assert PartOf(given[i], same, names[i], parts[i], extras[i]); }
    }
    assert GatheredBy(given', same, names', before.items + part, before.limitations + extra, parts', extras');
  }

  lemma GivesPart<T>(given: Step<T>, same: (Naming, T, T) -> bool, name: Naming, part: seq<T>, extra: seq<Limitation>)
    requires PartOf(given, same, name, part, extra)
    ensures given.Give?
  {
  }

  lemma GatherNothing<T(!new)>(same: (Naming, T, T) -> bool)
    ensures Gathered([], same, [], Give([], []))
  {
    assert GatheredBy([], same, [], [], [], [], []);
  }

  /** The name a package's own name stands for in the report. */
  function NameOut(hash: Rename, w: Whole, path: string): Naming {
    (local, whole) => NamedAs(hash, w, path, local, whole)
  }

  lemma OutwardNames(hash: Rename, w: Whole, path: string)
    ensures forall id :: NameOut(hash, w, path)(id, Outward(ScopeOf(hash, w, path))(id))
  {
    forall id ensures IsGlobal(w, id) <==> id in GlobalIds(w) {}
  }

  function NamesOut(hash: Rename, w: Whole, paths: seq<string>): (r: seq<Naming>)
    ensures |r| == |paths|
  {
    if paths == [] then [] else NamesOut(hash, w, paths[..|paths| - 1]) + [NameOut(hash, w, paths[|paths| - 1])]
  }

  function AsFacts(outcome: FactOutcome): Step<Fact> {
    match outcome
    case FactsThrew(e) => Stop(e)
    case FactsEmitted(facts, limitations) => Give(facts, limitations)
  }

  function AsFindings(outcome: FindingOutcome): Step<Candidate> {
    match outcome
    case FindingsThrew(e) => Stop(e)
    case FindingsEmitted(findings, limitations) => Give(findings, limitations)
  }

  function AsRecommendations(outcome: RecommendationOutcome): Step<Recommendation> {
    match outcome
    case RecommendationsThrew(e) => Stop(e)
    case RecommendationsEmitted(items, limitations) => Give(items, limitations)
  }

  /** The runs of a rule, package by package, each on what that package sees. */
  function FactRuns(hash: Rename, rule: LocalFactRule, w: Whole, paths: seq<string>): (r: seq<Step<Fact>>)
    ensures |r| == |paths|
  {
    if paths == [] then []
    else
      var path := paths[|paths| - 1];
      FactRuns(hash, rule, w, paths[..|paths| - 1]) + [AsFacts(rule.evaluate(path, LocalView(ScopeOf(hash, w, path), w)))]
  }

  function FindingRuns(hash: Rename, rule: LocalFindingRule, w: Whole, paths: seq<string>): (r: seq<Step<Candidate>>)
    ensures |r| == |paths|
  {
    if paths == [] then []
    else
      var path := paths[|paths| - 1];
      var view := LocalView(ScopeOf(hash, w, path), w);
      FindingRuns(hash, rule, w, paths[..|paths| - 1])
        + [AsFindings(rule.evaluate(path, view.(facts := Filter(view.facts, (f: Fact) => rule.keeps(path, f)))))]
  }

  function RecommendationRuns(hash: Rename, rule: LocalRecommendationRule, w: Whole,
      paths: seq<string>): (r: seq<Step<Recommendation>>)
    ensures |r| == |paths|
  {
    if paths == [] then []
    else
      var path := paths[|paths| - 1];
      RecommendationRuns(hash, rule, w, paths[..|paths| - 1])
        + [AsRecommendations(rule.evaluate(path, LocalView(ScopeOf(hash, w, path), w)))]
  }

  lemma FactsPart(hash: Rename, w: Whole, path: string, facts: seq<Fact>, limitations: seq<Limitation>)
    ensures PartOf(Give(facts, limitations), SameFact, NameOut(hash, w, path), OutFacts(ScopeOf(hash, w, path), facts),
      OutLimitations(ScopeOf(hash, w, path), limitations))
  {
    hide SameFact, SameLimitation, RenameFact, RenameLimitation, NamedAs;
    OutwardNames(hash, w, path);
    RenamedIsSame(NameOut(hash, w, path), Outward(ScopeOf(hash, w, path)));
  }

  lemma FindingsPart(hash: Rename, w: Whole, path: string, findings: seq<Candidate>, limitations: seq<Limitation>)
    ensures PartOf(Give(findings, limitations), SameCandidate, NameOut(hash, w, path),
      OutCandidates(ScopeOf(hash, w, path), findings), OutLimitations(ScopeOf(hash, w, path), limitations))
  {
    hide SameCandidate, SameLimitation, RenameCandidate, RenameLimitation, NamedAs;
    OutwardNames(hash, w, path);
    RenamedIsSame(NameOut(hash, w, path), Outward(ScopeOf(hash, w, path)));
  }

  lemma RecommendationsPart(hash: Rename, w: Whole, path: string, items: seq<Recommendation>,
      limitations: seq<Limitation>)
    ensures PartOf(Give(items, limitations), SameRecommendation, NameOut(hash, w, path),
      OutRecommendations(ScopeOf(hash, w, path), items), OutLimitations(ScopeOf(hash, w, path), limitations))
  {
    hide SameRecommendation, SameLimitation, RenameRecommendation, RenameLimitation, NamedAs;
    OutwardNames(hash, w, path);
    RenamedIsSame(NameOut(hash, w, path), Outward(ScopeOf(hash, w, path)));
  }

  /** A scoped fact rule reports exactly what the packages' runs report, package by package and in order,
      under whole-report names; if one throws, the first throw is the rule's. */
  lemma {:induction false} ScopedFactRuleGathers(hash: Rename, rule: LocalFactRule, w: Whole, paths: seq<string>)
    ensures Gathered(FactRuns(hash, rule, w, paths), SameFact, NamesOut(hash, w, paths),
      AsFacts(ScopedFacts(hash, rule, w, paths)))
    decreases |paths|
  {
    hide LocalView, OutFacts, OutLimitations, Gathered, PartOf;
    if paths == [] { GatherNothing(SameFact); return; }
    var rest, path := paths[..|paths| - 1], paths[|paths| - 1];
    ScopedFactRuleGathers(hash, rule, w, rest);
    var s, last := ScopeOf(hash, w, path), rule.evaluate(path, LocalView(ScopeOf(hash, w, path), w));
    var facts, limitations :=
      if last.FactsEmitted? then last.facts else [], if last.FactsEmitted? then last.limitations else [];
    FactsPart(hash, w, path, facts, limitations);
    GatherMore(FactRuns(hash, rule, w, rest), SameFact, NamesOut(hash, w, rest), AsFacts(ScopedFacts(hash, rule, w, rest)),
      AsFacts(last), NameOut(hash, w, path), OutFacts(s, facts), OutLimitations(s, limitations));
  }

  /** The same for a scoped finding rule, whose runs are given the facts that `keeps` keeps. */
  lemma {:induction false} ScopedFindingRuleGathers(hash: Rename, rule: LocalFindingRule, w: Whole, paths: seq<string>)
    ensures Gathered(FindingRuns(hash, rule, w, paths), SameCandidate, NamesOut(hash, w, paths),
      AsFindings(ScopedFindings(hash, rule, w, paths)))
    decreases |paths|
  {
    hide LocalView, OutCandidates, OutLimitations, Gathered, PartOf;
    if paths == [] { GatherNothing(SameCandidate); return; }
    var rest, path := paths[..|paths| - 1], paths[|paths| - 1];
    ScopedFindingRuleGathers(hash, rule, w, rest);
    var s := ScopeOf(hash, w, path);
    var last := rule.evaluate(path, FindingView(rule, s, w, path));
    var findings, limitations :=
      if last.FindingsEmitted? then last.findings else [], if last.FindingsEmitted? then last.limitations else [];
    FindingsPart(hash, w, path, findings, limitations);
    GatherMore(FindingRuns(hash, rule, w, rest), SameCandidate, NamesOut(hash, w, rest),
      AsFindings(ScopedFindings(hash, rule, w, rest)), AsFindings(last), NameOut(hash, w, path), OutCandidates(s, findings),
      OutLimitations(s, limitations));
  }

  /** The same for a scoped recommendation rule. */
  lemma {:induction false} ScopedRecommendationRuleGathers(hash: Rename, rule: LocalRecommendationRule, w: Whole,
      paths: seq<string>)
    ensures Gathered(RecommendationRuns(hash, rule, w, paths), SameRecommendation, NamesOut(hash, w, paths),
      AsRecommendations(ScopedRecommendations(hash, rule, w, paths)))
    decreases |paths|
  {
    hide LocalView, OutRecommendations, OutLimitations, Gathered, PartOf;
    if paths == [] { GatherNothing(SameRecommendation); return; }
    var rest, path := paths[..|paths| - 1], paths[|paths| - 1];
    ScopedRecommendationRuleGathers(hash, rule, w, rest);
    var s := ScopeOf(hash, w, path);
    var last := rule.evaluate(path, LocalView(s, w));
    var items, limitations :=
      if last.RecommendationsEmitted? then last.recommendations else [],
      if last.RecommendationsEmitted? then last.limitations else [];
    RecommendationsPart(hash, w, path, items, limitations);
    GatherMore(RecommendationRuns(hash, rule, w, rest), SameRecommendation, NamesOut(hash, w, rest),
      AsRecommendations(ScopedRecommendations(hash, rule, w, rest)), AsRecommendations(last), NameOut(hash, w, path),
      OutRecommendations(s, items), OutLimitations(s, limitations));
  }
}
