/** `workspace-rules.ts`: each package is shown the report's entities under local names and what its
    rules emit is renamed back. References survive both ways, and packages cannot collide. */
module WorkspaceScoping {
  import opened Text
  import opened ReportContract
  import opened RulePipelineModel
  import opened RulePipelineSafety

  // ----- renaming -----

  type Rename = string -> string

  /** `entity`: the id, and every reference list at any depth; source and rule ids stay. */
  function RenameEvidence(e: Evidence, f: Rename): Evidence {
    e.(id := f(e.id))
  }

  function RenameLimitation(l: Limitation, f: Rename): Limitation {
    l.(id := f(l.id))
  }

  function RenameFact(x: Fact, f: Rename): Fact {
    x.(id := f(x.id), evidenceIds := Mapped(x.evidenceIds, f),
       check := if x.check == None then None else Some(x.check.value.(limitationIds := Mapped(x.check.value.limitationIds, f))))
  }

  function RenameCandidate(x: Candidate, f: Rename): Candidate {
    x.(id := f(x.id), evidenceIds := Mapped(x.evidenceIds, f), factIds := Mapped(x.factIds, f), limitationIds := Mapped(x.limitationIds, f),
       confidence := if x.confidence == None then None else Some(Mapped(x.confidence.value, f)))
  }

  function RenameFinding(x: Finding, f: Rename): Finding {
    Finding(RenameCandidate(x.base, f),
      x.priority.(factors := seq(|x.priority.factors|,
        i requires 0 <= i < |x.priority.factors| => Mapped(x.priority.factors[i], f))))
  }

  function RenameRecommendation(x: Recommendation, f: Rename): Recommendation {
    x.(id := f(x.id), findingIds := Mapped(x.findingIds, f), evidenceIds := Mapped(x.evidenceIds, f),
       confidence := if x.confidence == None then None else Some(Mapped(x.confidence.value, f)))
  }

  // ----- one package's scope -----

  const SHARED := "pkg-"

  function PackagePrefix(hash: Rename, path: string): string {
    SHARED + hash(path) + "-"
  }

  /** What the rules of the workspace work on. */
  datatype Whole = Whole(evidence: seq<Evidence>, limitations: seq<Limitation>, facts: seq<Fact>,
    findings: seq<Finding>)

  /** A package's name prefix, and the ids that keep their name. */
  datatype Scope = Scope(prefix: string, globals: set<string>)

  function GlobalIds(w: Whole): set<string> {
    (set e | e in w.evidence && e.external.Some? :: e.id) + (set l | l in w.limitations && !StartsWith(l.id, SHARED) :: l.id)
  }

  function ScopeOf(hash: Rename, w: Whole, path: string): Scope {
    Scope(PackagePrefix(hash, path), GlobalIds(w))
  }

  /** Whole-report name to local name. */
  function Inward(s: Scope): Rename {
    id => if StartsWith(id, s.prefix) then id[|s.prefix|..] else id
  }

  /** Local name to whole-report name. */
  function Outward(s: Scope): Rename {
    id => if id in s.globals then id else s.prefix + id
  }

  function ShownEvidence(s: Scope, w: Whole): seq<Evidence> {
    Filter(w.evidence, (e: Evidence) => e.external.Some? || StartsWith(e.id, s.prefix))
  }

  function ShownLimitations(s: Scope, w: Whole): seq<Limitation> {
    Filter(w.limitations, (l: Limitation) => !StartsWith(l.id, SHARED) || StartsWith(l.id, s.prefix))
  }

  function ShownFacts(s: Scope, w: Whole): seq<Fact> {
    Filter(w.facts, (f: Fact) => StartsWith(f.id, s.prefix))
  }

  function ShownFindings(s: Scope, w: Whole): seq<Finding> {
    Filter(w.findings, (f: Finding) => StartsWith(f.base.id, s.prefix))
  }

  /** `packageContext`. */
  function LocalView(s: Scope, w: Whole): Whole {
    Whole(
      Mapped(ShownEvidence(s, w), (e: Evidence) => RenameEvidence(e, Inward(s))),
      Mapped(ShownLimitations(s, w), (l: Limitation) => RenameLimitation(l, Inward(s))),
      Mapped(ShownFacts(s, w), (f: Fact) => RenameFact(f, Inward(s))),
      Mapped(ShownFindings(s, w), (f: Finding) => RenameFinding(f, Inward(s))))
  }

  // ----- out and in again -----

  /** Renaming out and in again gives the local name back, except for a global id that happens to
      carry the package's own prefix. */
  lemma {:induction false} OutThenInIsIdentityExactly(s: Scope, id: string)
    requires s.prefix != ""
    ensures Inward(s)(Outward(s)(id)) == id <==> !(id in s.globals && StartsWith(id, s.prefix))
  {
    if id !in s.globals { assert (s.prefix + id)[|s.prefix|..] == id; }
    else if StartsWith(id, s.prefix) { assert |id[|s.prefix|..]| < |id|; }
  }

  /** Shown to the package: a global id, or one of its own. */
  predicate Shown(s: Scope, id: string) {
    id in s.globals || StartsWith(id, s.prefix)
  }

  /** Some id of the package is, without its prefix, the same as a global one. */
  predicate Ambiguous(s: Scope, id: string) {
    StartsWith(id, s.prefix) && id[|s.prefix|..] in s.globals && id[|s.prefix|..] != id
  }

  lemma {:induction false} InThenOutIsIdentityExactly(s: Scope, id: string)
    requires Shown(s, id) && s.prefix != ""
    ensures Outward(s)(Inward(s)(id)) == id <==> !Ambiguous(s, id)
  {
    if StartsWith(id, s.prefix) { assert s.prefix + id[|s.prefix|..] == id; }
  }

  // ----- paths -----

  const LOCKFILES: seq<string> := ["package-lock.json", "pnpm-lock.yaml", "yarn.lock"]

  function PathOut(path: string, item: string): string {
    if path == "." || item in LOCKFILES then item else if item == "." then path else path + "/" + item
  }

  function PathIn(path: string, item: string): string {
    if path != "." && StartsWith(item, path + "/") then item[|path| + 1..] else item
  }

  lemma LockfilesHaveNoSlash(item: string)
    requires item in LOCKFILES
    ensures !Has(item, '/')
  {
  }

  /** Paths come back from outside as they were, except a package directory named `.` from inside. */
  lemma {:induction false} PathOutThenInIsIdentityExactly(path: string, item: string)
    ensures PathIn(path, PathOut(path, item)) == item <==> (path == "." || item != ".")
  {
    var slash := path + "/";
    assert slash[|path|] == '/';
    if item in LOCKFILES { LockfilesHaveNoSlash(item); }
    else if path != "." && item != "." {
      assert path + "/" + item == slash + item;
      assert (slash + item)[|slash|..] == item;
    }
  }

  // ----- the scoped rules -----

  /** A rule as one package sees it; it is given the package's path and local view. */
  datatype LocalFactRule = LocalFactRule(evaluate: (string, Whole) -> FactOutcome)

  function OutFacts(s: Scope, facts: seq<Fact>): seq<Fact> {
    Mapped(facts, (f: Fact) => RenameFact(f, Outward(s)))
  }

  function OutLimitations(s: Scope, limitations: seq<Limitation>): seq<Limitation> {
    Mapped(limitations, (l: Limitation) => RenameLimitation(l, Outward(s)))
  }

  function OutCandidates(s: Scope, findings: seq<Candidate>): seq<Candidate> {
    Mapped(findings, (f: Candidate) => RenameCandidate(f, Outward(s)))
  }

  function OutRecommendations(s: Scope, items: seq<Recommendation>): seq<Recommendation> {
    Mapped(items, (r: Recommendation) => RenameRecommendation(r, Outward(s)))
  }

  /** `scopeFactRule` over the packages in order; one package throwing is the rule throwing. */
  function ScopedFacts(hash: Rename, rule: LocalFactRule, w: Whole, paths: seq<string>): FactOutcome {
    if paths == [] then FactsEmitted([], [])
    else
      var before := ScopedFacts(hash, rule, w, paths[..|paths| - 1]);
      var path := paths[|paths| - 1];
      var s := ScopeOf(hash, w, path);
      if before.FactsThrew? then before
      else match rule.evaluate(path, LocalView(s, w))
        case FactsThrew(e) => FactsThrew(e)
        case FactsEmitted(facts, limitations) =>
          FactsEmitted(before.facts + OutFacts(s, facts), before.limitations + OutLimitations(s, limitations))
  }

  /** `scopeFactRule`, in its own form: a loop over the packages that pushes to two lists. */
  method ScopeFactRule(hash: Rename, rule: LocalFactRule, w: Whole, paths: seq<string>) returns (outcome: FactOutcome)
    ensures outcome == ScopedFacts(hash, rule, w, paths)
  {
    hide LocalView, OutFacts, OutLimitations;
    var facts: seq<Fact> := [];
    var limitations: seq<Limitation> := [];
    for i := 0 to |paths|
      invariant ScopedFacts(hash, rule, w, paths[..i]) == FactsEmitted(facts, limitations)
    {
      assert paths[..i + 1][..i] == paths[..i] && paths[..i + 1][i] == paths[i];
      var s := ScopeOf(hash, w, paths[i]);
      var result := rule.evaluate(paths[i], LocalView(s, w));
      if result.FactsThrew? {
        ThrowingStays(hash, rule, w, paths, i + 1);
        return result;
      }
      facts := facts + OutFacts(s, result.facts);
      limitations := limitations + OutLimitations(s, result.limitations);
    }
    assert paths[..|paths|] == paths;
    outcome := FactsEmitted(facts, limitations);
  }

  lemma {:induction false} ThrowingStays(hash: Rename, rule: LocalFactRule, w: Whole, paths: seq<string>, n: nat)
    requires n <= |paths| && ScopedFacts(hash, rule, w, paths[..n]).FactsThrew?
    ensures ScopedFacts(hash, rule, w, paths) == ScopedFacts(hash, rule, w, paths[..n])
    decreases |paths|
  {
    hide LocalView, OutFacts, OutLimitations;
    if n == |paths| { assert paths[..n] == paths; }
    else {
      assert paths[..|paths| - 1][..n] == paths[..n];
      ThrowingStays(hash, rule, w, paths[..|paths| - 1], n);
    }
  }

  /** A finding rule; `keeps` drops the peer and internal dependencies from the facts it is shown. */
  datatype LocalFindingRule = LocalFindingRule(keeps: (string, Fact) -> bool,
    evaluate: (string, Whole) -> FindingOutcome)

  datatype LocalRecommendationRule = LocalRecommendationRule(evaluate: (string, Whole) -> RecommendationOutcome)

  /** What a finding rule is shown. */
  function FindingView(rule: LocalFindingRule, s: Scope, w: Whole, path: string): Whole {
    var view := LocalView(s, w);
    view.(facts := Filter(view.facts, (f: Fact) => rule.keeps(path, f)))
  }

  /** `scopeFindingRule`: the packages' results, each renamed, in order. */
  function ScopedFindings(hash: Rename, rule: LocalFindingRule, w: Whole, paths: seq<string>): FindingOutcome {
    if paths == [] then FindingsEmitted([], [])
    else
      var before := ScopedFindings(hash, rule, w, paths[..|paths| - 1]);
      var path := paths[|paths| - 1];
      var s := ScopeOf(hash, w, path);
      if before.FindingsThrew? then before
      else match rule.evaluate(path, FindingView(rule, s, w, path))
        case FindingsThrew(e) => FindingsThrew(e)
        case FindingsEmitted(findings, limitations) =>
          FindingsEmitted(before.findings + OutCandidates(s, findings),
            before.limitations + OutLimitations(s, limitations))
  }

  /** `scopeRecommendationRule`. */
  function ScopedRecommendations(hash: Rename, rule: LocalRecommendationRule, w: Whole,
      paths: seq<string>): RecommendationOutcome {
    if paths == [] then RecommendationsEmitted([], [])
    else
      var before := ScopedRecommendations(hash, rule, w, paths[..|paths| - 1]);
      var path := paths[|paths| - 1];
      var s := ScopeOf(hash, w, path);
      if before.RecommendationsThrew? then before
      else match rule.evaluate(path, LocalView(s, w))
        case RecommendationsThrew(e) => RecommendationsThrew(e)
        case RecommendationsEmitted(items, limitations) =>
          RecommendationsEmitted(before.recommendations + OutRecommendations(s, items),
            before.limitations + OutLimitations(s, limitations))
  }

  // ----- references survive -----

  /** No id of the workspace becomes ambiguous inside this package. */
  predicate Unambiguous(s: Scope, w: Whole) {
    && (forall e :: e in w.evidence ==> !Ambiguous(s, e.id))
    && (forall l :: l in w.limitations ==> !Ambiguous(s, l.id))
    && (forall f :: f in w.facts ==> !Ambiguous(s, f.id))
    && (forall f :: f in w.findings ==> !Ambiguous(s, f.base.id))
  }

  /** Every id a package is shown leads back to an id of the workspace. */
  lemma {:induction false} ShownIdsLeadBack(hash: Rename, w: Whole, path: string)
    requires Unambiguous(ScopeOf(hash, w, path), w)
    ensures var s := ScopeOf(hash, w, path);
      && (forall id :: id in EvidenceIds(LocalView(s, w).evidence) ==> Outward(s)(id) in EvidenceIds(w.evidence))
      && (forall id :: id in LimitationIds(LocalView(s, w).limitations) ==> Outward(s)(id) in LimitationIds(w.limitations))
      && (forall id :: id in FactIds(LocalView(s, w).facts) ==> Outward(s)(id) in FactIds(w.facts))
      && (forall id :: id in FindingIds(LocalView(s, w).findings) ==> Outward(s)(id) in FindingIds(w.findings))
  {
    var s := ScopeOf(hash, w, path);
    var view := LocalView(s, w);
    assert s.prefix != "";
    forall id | id in EvidenceIds(view.evidence) ensures Outward(s)(id) in EvidenceIds(w.evidence) {
      var i :| 0 <= i < |view.evidence| && EvidenceIds(view.evidence)[i] == id;
      var e := ShownEvidence(s, w)[i];
      assert e in ShownEvidence(s, w) && id == Inward(s)(e.id);
      InThenOutIsIdentityExactly(s, e.id);
      var k :| 0 <= k < |w.evidence| && w.evidence[k] == e;
      assert EvidenceIds(w.evidence)[k] == e.id;
    }
    forall id | id in LimitationIds(view.limitations) ensures Outward(s)(id) in LimitationIds(w.limitations) {
      var i :| 0 <= i < |view.limitations| && LimitationIds(view.limitations)[i] == id;
      var l := ShownLimitations(s, w)[i];
      assert l in ShownLimitations(s, w) && id == Inward(s)(l.id);
      InThenOutIsIdentityExactly(s, l.id);
      var k :| 0 <= k < |w.limitations| && w.limitations[k] == l;
      assert LimitationIds(w.limitations)[k] == l.id;
    }
    FactsLeadBack(s, w);
  }

  lemma {:induction false} FactsLeadBack(s: Scope, w: Whole)
    requires Unambiguous(s, w) && s.prefix != ""
    ensures forall id :: id in FactIds(LocalView(s, w).facts) ==> Outward(s)(id) in FactIds(w.facts)
    ensures forall id :: id in FindingIds(LocalView(s, w).findings) ==> Outward(s)(id) in FindingIds(w.findings)
  {
    var view := LocalView(s, w);
    forall id | id in FactIds(view.facts) ensures Outward(s)(id) in FactIds(w.facts) {
      var i :| 0 <= i < |view.facts| && FactIds(view.facts)[i] == id;
      var f := ShownFacts(s, w)[i];
      assert f in ShownFacts(s, w) && id == Inward(s)(f.id);
      InThenOutIsIdentityExactly(s, f.id);
      var k :| 0 <= k < |w.facts| && w.facts[k] == f;
      assert FactIds(w.facts)[k] == f.id;
    }
    forall id | id in FindingIds(view.findings) ensures Outward(s)(id) in FindingIds(w.findings) {
      var i :| 0 <= i < |view.findings| && FindingIds(view.findings)[i] == id;
      var f := ShownFindings(s, w)[i];
      assert f in ShownFindings(s, w) && id == Inward(s)(f.base.id);
      InThenOutIsIdentityExactly(s, f.base.id);
      var k :| 0 <= k < |w.findings| && w.findings[k] == f;
      assert FindingIds(w.findings)[k] == f.base.id;
    }
  }

  lemma {:induction false} ReferencesFollow(refs: seq<string>, f: Rename, ids: seq<string>, whole: seq<string>)
    requires Known(refs, ids) && forall id :: id in ids ==> f(id) in whole
    ensures Known(Mapped(refs, f), whole)
  {
    forall r | r in Mapped(refs, f) ensures r in whole {
      var i :| 0 <= i < |refs| && Mapped(refs, f)[i] == r;
      assert refs[i] in refs;
    }
  }

  /** What a rule emits for one package refers only to what it was shown or emits itself. */
  predicate FactsSelfContained(view: Whole, facts: seq<Fact>, limitations: seq<Limitation>) {
    forall f :: f in facts ==>
      && Known(f.evidenceIds, EvidenceIds(view.evidence))
      && (f.check.Some? ==> Known(f.check.value.limitationIds, LimitationIds(view.limitations) + LimitationIds(limitations)))
  }

  lemma {:induction false} EmittedLimitationsFollow(s: Scope, limitations: seq<Limitation>)
    ensures forall id :: id in LimitationIds(limitations) ==> Outward(s)(id) in LimitationIds(OutLimitations(s, limitations))
  {
    forall id | id in LimitationIds(limitations) ensures Outward(s)(id) in LimitationIds(OutLimitations(s,
      limitations)) {
      var i :| 0 <= i < |limitations| && LimitationIds(limitations)[i] == id;
      assert LimitationIds(OutLimitations(s, limitations))[i] == Outward(s)(id);
    }
  }

  /** Renamed out, the facts of one package refer only to evidence of the workspace, and their checks
      only to limitations of the workspace or emitted beside them. */
  lemma {:induction false} ScopedFactsKeepReferences(hash: Rename, w: Whole, path: string, facts: seq<Fact>,
      limitations: seq<Limitation>)
    requires Unambiguous(ScopeOf(hash, w, path), w)
    requires FactsSelfContained(LocalView(ScopeOf(hash, w, path), w), facts, limitations)
    ensures var s := ScopeOf(hash, w, path);
      forall f :: f in OutFacts(s, facts) ==>
        && Known(f.evidenceIds, EvidenceIds(w.evidence))
        && (f.check.Some? ==> Known(f.check.value.limitationIds, LimitationIds(w.limitations) + LimitationIds(OutLimitations(s, limitations))))
  {
    hide LocalView, Unambiguous, Outward;
    var s := ScopeOf(hash, w, path);
    var view := LocalView(s, w);
    ShownIdsLeadBack(hash, w, path);
    EmittedLimitationsFollow(s, limitations);
    forall f | f in OutFacts(s, facts)
      ensures Known(f.evidenceIds, EvidenceIds(w.evidence))
      ensures f.check.Some? ==> Known(f.check.value.limitationIds,
        LimitationIds(w.limitations) + LimitationIds(OutLimitations(s, limitations)))
    {
      var i :| 0 <= i < |facts| && f == RenameFact(facts[i], Outward(s));
      assert facts[i] in facts;
      ReferencesFollow(facts[i].evidenceIds, Outward(s), EvidenceIds(view.evidence), EvidenceIds(w.evidence));
      if f.check.Some? {
        ReferencesFollow(facts[i].check.value.limitationIds, Outward(s), LimitationIds(view.limitations) + LimitationIds(limitations),
          LimitationIds(w.limitations) + LimitationIds(OutLimitations(s, limitations)));
      }
    }
  }

  /** The scoped fact rule as a whole: everything it emits refers to the workspace's evidence, and to
      the workspace's limitations or its own. */
  lemma {:induction false} ScopedFactRuleKeepsReferences(hash: Rename, rule: LocalFactRule, w: Whole,
      paths: seq<string>)
    requires ScopedFacts(hash, rule, w, paths).FactsEmitted?
    requires forall i :: 0 <= i < |paths| ==>
      var s := ScopeOf(hash, w, paths[i]);
      var o := rule.evaluate(paths[i], LocalView(s, w));
      Unambiguous(s, w) && (o.FactsEmitted? ==> FactsSelfContained(LocalView(s, w), o.facts, o.limitations))
    ensures var all := ScopedFacts(hash, rule, w, paths);
      forall f :: f in all.facts ==>
        && Known(f.evidenceIds, EvidenceIds(w.evidence))
        && (f.check.Some? ==> Known(f.check.value.limitationIds, LimitationIds(w.limitations) + LimitationIds(all.limitations)))
    decreases |paths|
  {
    hide LocalView, Unambiguous, OutFacts, OutLimitations, FactsSelfContained;
    if paths == [] { return; }
    var rest, path := paths[..|paths| - 1], paths[|paths| - 1];
    assert forall i :: 0 <= i < |rest| ==> rest[i] == paths[i];
    var s := ScopeOf(hash, w, path);
    ScopedFactRuleKeepsReferences(hash, rule, w, rest);
    var before, o := ScopedFacts(hash, rule, w, rest), rule.evaluate(path, LocalView(s, w));
    ScopedFactsKeepReferences(hash, w, path, o.facts, o.limitations);
    IdsAppend(before.limitations, OutLimitations(s, o.limitations), (l: Limitation) => l.id);
  }

  predicate FindingsSelfContained(view: Whole, findings: seq<Candidate>, limitations: seq<Limitation>) {
    forall f :: f in findings ==>
      && Known(f.evidenceIds, EvidenceIds(view.evidence)) && Known(f.factIds, FactIds(view.facts))
      && Known(f.limitationIds, LimitationIds(view.limitations) + LimitationIds(limitations))
      && (f.confidence.Some? ==> Known(f.confidence.value, f.factIds))
  }

  /** The same for findings, including that confidence facts stay among the finding's own facts. */
  lemma {:induction false} ScopedFindingsKeepReferences(hash: Rename, w: Whole, path: string, findings: seq<Candidate>,
      limitations: seq<Limitation>)
    requires Unambiguous(ScopeOf(hash, w, path), w)
    requires FindingsSelfContained(LocalView(ScopeOf(hash, w, path), w), findings, limitations)
    ensures var s := ScopeOf(hash, w, path);
      forall f :: f in OutCandidates(s, findings) ==>
        && Known(f.evidenceIds, EvidenceIds(w.evidence)) && Known(f.factIds, FactIds(w.facts))
        && Known(f.limitationIds, LimitationIds(w.limitations) + LimitationIds(OutLimitations(s, limitations)))
        && (f.confidence.Some? ==> Known(f.confidence.value, f.factIds))
  {
    hide LocalView, Unambiguous, Outward;
    var s := ScopeOf(hash, w, path);
    var view := LocalView(s, w);
    ShownIdsLeadBack(hash, w, path);
    EmittedLimitationsFollow(s, limitations);
    forall f | f in OutCandidates(s, findings)
      ensures Known(f.evidenceIds, EvidenceIds(w.evidence)) && Known(f.factIds, FactIds(w.facts))
      ensures Known(f.limitationIds, LimitationIds(w.limitations) + LimitationIds(OutLimitations(s, limitations)))
      ensures f.confidence.Some? ==> Known(f.confidence.value, f.factIds)
    {
      var i :| 0 <= i < |findings| && f == RenameCandidate(findings[i], Outward(s));
      var x := findings[i];
      assert x in findings;
      ReferencesFollow(x.evidenceIds, Outward(s), EvidenceIds(view.evidence), EvidenceIds(w.evidence));
      ReferencesFollow(x.factIds, Outward(s), FactIds(view.facts), FactIds(w.facts));
      ReferencesFollow(x.limitationIds, Outward(s), LimitationIds(view.limitations) + LimitationIds(limitations),
        LimitationIds(w.limitations) + LimitationIds(OutLimitations(s, limitations)));
      if x.confidence.Some? {
        forall id | id in x.factIds ensures Outward(s)(id) in Mapped(x.factIds, Outward(s)) {
          var k :| 0 <= k < |x.factIds| && x.factIds[k] == id;
          assert Mapped(x.factIds, Outward(s))[k] == Outward(s)(id);
        }
        ReferencesFollow(x.confidence.value, Outward(s), x.factIds, f.factIds);
      }
    }
  }

  /** A finding rule sees fewer facts than the package has, so what it cites is there. */
  lemma NarrowedStaysSelfContained(rule: LocalFindingRule, s: Scope, w: Whole, path: string, findings: seq<Candidate>,
      limitations: seq<Limitation>)
    requires FindingsSelfContained(FindingView(rule, s, w, path), findings, limitations)
    ensures FindingsSelfContained(LocalView(s, w), findings, limitations)
  {
    hide LocalView;
    var shown, all := FindingView(rule, s, w, path).facts, LocalView(s, w).facts;
    forall id | id in FactIds(shown) ensures id in FactIds(all) {
      var i :| 0 <= i < |shown| && FactIds(shown)[i] == id;
      assert shown[i] in shown;
      var k :| 0 <= k < |all| && all[k] == shown[i];
      assert FactIds(all)[k] == id;
    }
  }

  /** The scoped finding rule as a whole, over all packages. */
  lemma {:induction false} ScopedFindingRuleKeepsReferences(hash: Rename, rule: LocalFindingRule, w: Whole,
      paths: seq<string>)
    requires ScopedFindings(hash, rule, w, paths).FindingsEmitted?
    requires forall i :: 0 <= i < |paths| ==>
      var s := ScopeOf(hash, w, paths[i]);
      var view := FindingView(rule, s, w, paths[i]);
      var o := rule.evaluate(paths[i], view);
      Unambiguous(s, w) && (o.FindingsEmitted? ==> FindingsSelfContained(view, o.findings, o.limitations))
    ensures var all := ScopedFindings(hash, rule, w, paths);
      forall f :: f in all.findings ==>
        && Known(f.evidenceIds, EvidenceIds(w.evidence)) && Known(f.factIds, FactIds(w.facts))
        && Known(f.limitationIds, LimitationIds(w.limitations) + LimitationIds(all.limitations))
        && (f.confidence.Some? ==> Known(f.confidence.value, f.factIds))
    decreases |paths|
  {
    hide FindingView, Unambiguous, OutCandidates, OutLimitations, FindingsSelfContained;
    if paths == [] { return; }
    var rest, path := paths[..|paths| - 1], paths[|paths| - 1];
    assert forall i :: 0 <= i < |rest| ==> rest[i] == paths[i];
    var s := ScopeOf(hash, w, path);
    ScopedFindingRuleKeepsReferences(hash, rule, w, rest);
    var before, o := ScopedFindings(hash, rule, w, rest), rule.evaluate(path, FindingView(rule, s, w, path));
    NarrowedStaysSelfContained(rule, s, w, path, o.findings, o.limitations);
    ScopedFindingsKeepReferences(hash, w, path, o.findings, o.limitations);
    IdsAppend(before.limitations, OutLimitations(s, o.limitations), (l: Limitation) => l.id);
  }

  predicate RecommendationsSelfContained(view: Whole, items: seq<Recommendation>) {
    forall r :: r in items ==>
      && Known(r.findingIds, FindingIds(view.findings)) && Known(r.evidenceIds, EvidenceIds(view.evidence))
      && (r.confidence.Some? ==> Known(r.confidence.value, FactIds(view.facts)))
  }

  lemma {:induction false} ScopedRecommendationsKeepReferences(hash: Rename, w: Whole, path: string,
      items: seq<Recommendation>)
    requires Unambiguous(ScopeOf(hash, w, path), w)
    requires RecommendationsSelfContained(LocalView(ScopeOf(hash, w, path), w), items)
    ensures var s := ScopeOf(hash, w, path);
      forall r :: r in OutRecommendations(s, items) ==>
        && Known(r.findingIds, FindingIds(w.findings)) && Known(r.evidenceIds, EvidenceIds(w.evidence))
        && (r.confidence.Some? ==> Known(r.confidence.value, FactIds(w.facts)))
  {
    hide LocalView, Unambiguous, Outward;
    var s := ScopeOf(hash, w, path);
    var view := LocalView(s, w);
    ShownIdsLeadBack(hash, w, path);
    forall r | r in OutRecommendations(s, items)
      ensures Known(r.findingIds, FindingIds(w.findings)) && Known(r.evidenceIds, EvidenceIds(w.evidence))
      ensures r.confidence.Some? ==> Known(r.confidence.value, FactIds(w.facts))
    {
      var i :| 0 <= i < |items| && r == RenameRecommendation(items[i], Outward(s));
      assert items[i] in items;
      ReferencesFollow(items[i].findingIds, Outward(s), FindingIds(view.findings), FindingIds(w.findings));
      ReferencesFollow(items[i].evidenceIds, Outward(s), EvidenceIds(view.evidence), EvidenceIds(w.evidence));
      if r.confidence.Some? { ReferencesFollow(items[i].confidence.value, Outward(s), FactIds(view.facts), FactIds(w.facts)); }
    }
  }

  /** The scoped recommendation rule as a whole, over all packages. */
  lemma {:induction false} ScopedRecommendationRuleKeepsReferences(hash: Rename, rule: LocalRecommendationRule,
      w: Whole, paths: seq<string>)
    requires ScopedRecommendations(hash, rule, w, paths).RecommendationsEmitted?
    requires forall i :: 0 <= i < |paths| ==>
      var s := ScopeOf(hash, w, paths[i]);
      var o := rule.evaluate(paths[i], LocalView(s, w));
      Unambiguous(s, w) && (o.RecommendationsEmitted? ==> RecommendationsSelfContained(LocalView(s, w), o.recommendations))
    ensures forall r :: r in ScopedRecommendations(hash, rule, w, paths).recommendations ==>
      && Known(r.findingIds, FindingIds(w.findings)) && Known(r.evidenceIds, EvidenceIds(w.evidence))
      && (r.confidence.Some? ==> Known(r.confidence.value, FactIds(w.facts)))
    decreases |paths|
  {
    hide LocalView, Unambiguous, OutRecommendations, OutLimitations, RecommendationsSelfContained;
    if paths == [] { return; }
    var rest, path := paths[..|paths| - 1], paths[|paths| - 1];
    assert forall i :: 0 <= i < |rest| ==> rest[i] == paths[i];
    var s := ScopeOf(hash, w, path);
    ScopedRecommendationRuleKeepsReferences(hash, rule, w, rest);
    ScopedRecommendationsKeepReferences(hash, w, path, rule.evaluate(path, LocalView(s, w)).recommendations);
  }

  // ----- packages do not collide -----

  /** Prefixes of equal length that differ keep all names apart. */
  lemma {:induction false} PrefixesKeepApart(p: string, q: string, a: string, b: string)
    requires |p| == |q| && p != q
    ensures p + a != q + b
  {
    assert (p + a)[..|p|] == p && (q + b)[..|q|] == q;
  }

  /** Two packages whose hashes differ never emit the same id, nor does one package give one id to
      two, as long as local ids are not global ones. */
  lemma {:induction false} PackagesNeverCollide(hash: Rename, w: Whole, path: string, other: string, a: string,
      b: string)
    requires |hash(path)| == |hash(other)| && a !in GlobalIds(w) && b !in GlobalIds(w)
    ensures hash(path) != hash(other) ==>
      Outward(ScopeOf(hash, w, path))(a) != Outward(ScopeOf(hash, w, other))(b)
    ensures path == other ==>
      (Outward(ScopeOf(hash, w, path))(a) == Outward(ScopeOf(hash, w, other))(b) <==> a == b)
  {
    var p, q := PackagePrefix(hash, path), PackagePrefix(hash, other);
    if hash(path) != hash(other) {
      assert p[|SHARED|..|p| - 1] == hash(path) && q[|SHARED|..|q| - 1] == hash(other);
      PrefixesKeepApart(p, q, a, b);
    } else if path == other {
      assert (p + a)[|p|..] == a && (q + b)[|q|..] == b;
    }
  }

  /** All packages together: distinct local ids in each, and distinct hashes, give distinct ids. */
  lemma {:induction false} ScopedFactIdsAreDistinct(hash: Rename, rule: LocalFactRule, w: Whole, paths: seq<string>)
    requires forall i, j :: 0 <= i < j < |paths| ==> hash(paths[i]) != hash(paths[j]) && |hash(paths[i])| == |hash(paths[j])|
    requires ScopedFacts(hash, rule, w, paths).FactsEmitted?
    requires forall i :: 0 <= i < |paths| ==>
      var o := rule.evaluate(paths[i], LocalView(ScopeOf(hash, w, paths[i]), w));
      o.FactsEmitted? ==> Distinct(FactIds(o.facts)) && forall id :: id in FactIds(o.facts) ==> id !in GlobalIds(w)
    ensures Distinct(FactIds(ScopedFacts(hash, rule, w, paths).facts))
    ensures forall id :: id in FactIds(ScopedFacts(hash, rule, w, paths).facts) ==>
      exists i, local :: 0 <= i < |paths| && local !in GlobalIds(w) && id == PackagePrefix(hash, paths[i]) + local
    decreases |paths|
  {
    hide LocalView, RenameFact, GlobalIds;
    if paths == [] { return; }
    var rest, path := paths[..|paths| - 1], paths[|paths| - 1];
    assert forall i :: 0 <= i < |rest| ==> rest[i] == paths[i];
    var s := ScopeOf(hash, w, path);
    ScopedFactIdsAreDistinct(hash, rule, w, rest);
    var before := ScopedFacts(hash, rule, w, rest).facts;
    var facts := rule.evaluate(path, LocalView(s, w)).facts;
    var ids := FactIds(OutFacts(s, facts));
    assert Distinct(FactIds(facts)) && forall id :: id in FactIds(facts) ==> id !in GlobalIds(w);
    OutFactIds(hash, w, path, facts);
    forall id | id in ids ensures id !in FactIds(before) {
      var a :| a !in GlobalIds(w) && id == s.prefix + a;
      if id in FactIds(before) {
        var i, b :| 0 <= i < |rest| && b !in GlobalIds(w) && id == PackagePrefix(hash, rest[i]) + b;
        PrefixesOfHashes(hash, paths[i], path);
        PrefixesKeepApart(PackagePrefix(hash, rest[i]), s.prefix, b, a);
      }
    }
    IdsAppend(before, OutFacts(s, facts), (f: Fact) => f.id);
    NewIdsStayDistinct(FactIds(before), ids);
    forall id | id in FactIds(before) + ids
      ensures exists i, local :: 0 <= i < |paths| && local !in GlobalIds(w) && id == PackagePrefix(hash, paths[i]) + local
    {
      if id in ids {
        var a :| a !in GlobalIds(w) && id == s.prefix + a;
        assert id == PackagePrefix(hash, paths[|paths| - 1]) + a;
      } else {
        var i, b :| 0 <= i < |rest| && b !in GlobalIds(w) && id == PackagePrefix(hash, rest[i]) + b;
        assert id == PackagePrefix(hash, paths[i]) + b;
      }
    }
  }

  lemma PrefixesOfHashes(hash: Rename, p: string, q: string)
    requires hash(p) != hash(q) && |hash(p)| == |hash(q)|
    ensures PackagePrefix(hash, p) != PackagePrefix(hash, q) && |PackagePrefix(hash, p)| == |PackagePrefix(hash, q)|
  {
    var a, b := PackagePrefix(hash, p), PackagePrefix(hash, q);
    assert a[|SHARED|..|a| - 1] == hash(p) && b[|SHARED|..|b| - 1] == hash(q);
  }

  lemma {:induction false} OutFactIds(hash: Rename, w: Whole, path: string, facts: seq<Fact>)
    requires Distinct(FactIds(facts)) && forall id :: id in FactIds(facts) ==> id !in GlobalIds(w)
    ensures var s := ScopeOf(hash, w, path);
      && Distinct(FactIds(OutFacts(s, facts)))
      && forall id :: id in FactIds(OutFacts(s, facts)) ==> exists a :: a !in GlobalIds(w) && id == s.prefix + a
  {
    hide GlobalIds;
    var s := ScopeOf(hash, w, path);
    var ids, out := FactIds(facts), FactIds(OutFacts(s, facts));
    forall i | 0 <= i < |facts| ensures out[i] == s.prefix + ids[i] && ids[i] !in GlobalIds(w) { assert ids[i] in ids; }
    forall i, j | 0 <= i < j < |out| ensures out[i] != out[j] {
      assert (s.prefix + ids[i])[|s.prefix|..] == ids[i] && (s.prefix + ids[j])[|s.prefix|..] == ids[j];
    }
  }
}
