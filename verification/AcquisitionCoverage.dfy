/** The coverage verdict, read off the tree and the returned lists: complete exactly when nothing of the
    tree that matters was put aside, capped or skipped. */
module AcquisitionCoverage {
  import opened Text
  import opened RepositoryPaths
  import opened AcquisitionModel
  import opened AcquisitionSafety

  // ----- the statement -----

  /** An entry that becomes a candidate. */
  predicate Eligible(e: Entry) {
    && IsCanonicalPath(e.path) && e.entryType == BlobEntry && e.mode != "120000"
    && !IsUnsupportedSourcePath(e.path) && IsInitiallySupportedPath(e.path) && !IsIgnoredPath(e.path)
  }

  /** An entry that is not put aside for a reason that matters: neither an unsafe path nor a submodule, nor
      source in an unsupported format, nor a supported path in a generated or vendored directory, nor a
      link where usage evidence is looked for. */
  predicate Unproblematic(e: Entry) {
    && IsCanonicalPath(e.path) && e.entryType != CommitEntry
    && (IsUnsupportedSourcePath(e.path) ==> IsIgnoredPath(e.path))
    && (!IsUnsupportedSourcePath(e.path) && IsInitiallySupportedPath(e.path) ==> !IsIgnoredPath(e.path))
    && (!IsUnsupportedSourcePath(e.path) && e.entryType == BlobEntry && e.mode == "120000" ==>
          !AffectsUsageEvidence(e.path))
  }

  function EligibleFrom(entries: seq<Entry>, n: nat): set<int> {
    set k | n <= k < |entries| && Eligible(entries[k])
  }

  /** Nothing that matters is missing. */
  predicate Whole(limits: Limits, tree: Tree, books: Ledger) {
    && !tree.truncated && (forall e :: e in tree.entries ==> Unproblematic(e))
    && |EligibleFrom(tree.entries, 0)| <= limits.maxFiles
    && NoneAffects(books.oversized) && NoneAffects(books.overBudget) && NoneAffects(books.binary)
    && NoneAffects(books.lfs) && NoneAffects(books.failed)
  }

  // ----- what triage puts aside -----

  lemma AffectedIsSupported(path: string)
    ensures AffectsUsageEvidence(path) ==> IsInitiallySupportedPath(path)
  {
  }

  lemma TriageSays(e: Entry, hasSelector: bool)
    ensures Classify(e, hasSelector).Chosen? <==> Eligible(e)
    ensures Unproblematic(e) <==>
      var t := Classify(e, hasSelector);
      && t != Unsafe && t != Submodule && t != Unsupported && t != Ignored
      && (t == Symlink ==> !AffectsUsageEvidence(e.path))
  {
    hide IsCanonicalPath, IsUnsupportedSourcePath, IsIgnoredPath, IsInitiallySupportedPath, KindOf, AffectsUsageEvidence;
    AffectedIsSupported(e.path);
  }

  lemma {:induction false} PutAsideSays(entries: seq<Entry>, hasSelector: bool, reason: Triage)
    ensures PutAside(entries, hasSelector, reason) == [] <==> forall e :: e in entries ==> Classify(e, hasSelector) != reason
    ensures NoneAffects(PutAside(entries, hasSelector, reason)) <==>
      forall e :: e in entries && Classify(e, hasSelector) == reason ==> !AffectsUsageEvidence(e.path)
    decreases |entries|
  {
    hide Classify, AffectsUsageEvidence;
    if entries == [] { return; }
    PutAsideSays(entries[1..], hasSelector, reason);
    var rest := PutAside(entries[1..], hasSelector, reason);
    assert forall e :: e in entries <==> e == entries[0] || e in entries[1..];
    if Classify(entries[0], hasSelector) == reason {
      var all := [entries[0].path] + rest;
      assert PutAside(entries, hasSelector, reason) == all && all[0] == entries[0].path;
      assert forall p :: p in all <==> p == entries[0].path || p in rest;
    }
  }

  lemma {:induction false} CandidatesAreEligible(entries: seq<Entry>, n: nat, hasSelector: bool)
    requires n <= |entries|
    ensures |Candidates(entries[n..], hasSelector)| == |EligibleFrom(entries, n)|
    decreases |entries| - n
  {
    hide Classify, Eligible;
    if n == |entries| {
      assert EligibleFrom(entries, n) == {};
      return;
    }
    CandidatesAreEligible(entries, n + 1, hasSelector);
    TriageSays(entries[n], hasSelector);
    assert entries[n..][0] == entries[n] && entries[n..][1..] == entries[n + 1..];
    var later := EligibleFrom(entries, n + 1);
    assert n !in later;
    assert EligibleFrom(entries, n) == later + (if Eligible(entries[n]) then {n} else {});
  }

  // ----- the list of candidates never becomes shorter -----

  lemma {:induction false} SelectNeverShrinks(limits: Limits, available: seq<Entry>, st: State, selected: seq<string>,
      additions: seq<Candidate>)
    requires st.next <= |st.retained|
    ensures |Select(limits, available, st, selected, additions).retained| >= |st.retained| + |additions|
    decreases |selected|
  {
    hide FindEntry, FindPending, FindReplaceable;
    if selected == [] { return; }
    var path, rest := selected[0], selected[1..];
    if path in st.queued {
      var i := FindPending(st.retained, st.next, path);
      if i.Some? {
        SelectNeverShrinks(limits, available, st.(retained := RemoveAt(st.retained, i.value)), rest,
          additions + [st.retained[i.value]]);
      } else { SelectNeverShrinks(limits, available, st, rest, additions); }
      return;
    }
    var entry := FindEntry(available, path);
    if entry.None? { SelectNeverShrinks(limits, available, st, rest, additions); return; }
    var added := additions + [AcquisitionModel.Candidate(entry.value, Config)];
    if |st.retained| + |additions| >= limits.maxFiles {
      var i := FindReplaceable(st.retained, st.next, |st.retained|);
      if i.None? {
        SelectNeverShrinks(limits, available, st.(ledger := OverBudgetPath(st.ledger, path)), rest, additions);
      } else {
        var replaced := st.retained[i.value].entry.path;
        SelectNeverShrinks(limits, available,
          st.(retained := RemoveAt(st.retained, i.value), ledger := OverBudgetPath(st.ledger, replaced),
              queued := st.queued - {replaced} + {path}),
          rest, added);
      }
    } else { SelectNeverShrinks(limits, available, st.(queued := st.queued + {path}), rest, added); }
  }

  lemma {:induction false} RoundNeverShrinks(limits: Limits, world: World, selector: Option<Selector>, available: seq<Entry>,
      st: State)
    requires st.next < |st.retained|
    ensures var r := Round(limits, world, selector, available, st);
      r.Some? ==> |r.value.retained| >= |st.retained| && (selector.None? ==> r.value.retained == st.retained)
  {
    hide FormBatch, FetchAll, RetainBatch, Select;
    var formed := FormBatch(limits, st, [], [], 0);
    var (replies, requests) := FetchAll(limits, world, formed.st.requests, formed.pending);
    var fetched := formed.st.(requests := requests);
    FormBatchPlaces(limits, st, [], [], 0);
    RetainBatchPlaces(limits, fetched, formed.batch, replies);
    var retained := RetainBatch(limits, fetched, formed.batch, replies);
    if retained.Some? && selector.Some? {
      var s := retained.value;
      SelectNeverShrinks(limits, available, s,
        Take(selector.value(s.ledger.files, EntryPaths(available), s.next), SELECTION_SIZE), []);
    }
  }

  lemma {:induction false} RunNeverShrinks(limits: Limits, world: World, selector: Option<Selector>, available: seq<Entry>,
      st: State)
    requires st.next <= |st.retained| <= limits.maxFiles
    ensures var r := Run(limits, world, selector, available, st);
      r.Some? ==> |st.retained| <= |r.value.retained| <= limits.maxFiles
    decreases limits.maxFiles - st.next
  {
    hide Round;
    if st.next < |st.retained| {
      RoundAdvances(limits, world, selector, available, st);
      RoundNeverShrinks(limits, world, selector, available, st);
      var r := Round(limits, world, selector, available, st);
      if r.Some? { RunNeverShrinks(limits, world, selector, available, r.value); }
    }
  }

  // ----- the verdict -----

  /** The verdict the source computes from its lists is exact: complete if and only if no entry of the tree
      is a problem, the eligible ones fit under the file cap, and no path that counts as usage evidence is
      among the oversized, over-budget, binary, LFS or failed ones. */
  lemma {:induction false} VerdictIsExact(limits: Limits, tree: Tree, world: World, selector: Option<Selector>, final: State)
    requires Run(limits, world, selector, Available(tree.entries), Initial(limits, tree, selector.Some?)) == Some(final)
    ensures SaysComplete(tree, selector.Some?, final) <==> Whole(limits, tree, final.ledger)
  {
    hide Run, Classify, Unproblematic, Eligible, NoneAffects, AffectsUsageEvidence, Candidates;
    var hasSelector, st := selector.Some?, Initial(limits, tree, selector.Some?);
    RunNeverShrinks(limits, world, selector, Available(tree.entries), st);
    assert tree.entries[0..] == tree.entries;
    CandidatesAreEligible(tree.entries, 0, hasSelector);
    PutAsideSays(tree.entries, hasSelector, Unsafe);
    PutAsideSays(tree.entries, hasSelector, Submodule);
    PutAsideSays(tree.entries, hasSelector, Unsupported);
    PutAsideSays(tree.entries, hasSelector, Ignored);
    PutAsideSays(tree.entries, hasSelector, Symlink);
    forall e | e in tree.entries
      ensures Unproblematic(e) <==>
        var t := Classify(e, hasSelector);
        && t != Unsafe && t != Submodule && t != Unsupported && t != Ignored
        && (t == Symlink ==> !AffectsUsageEvidence(e.path))
    {
      TriageSays(e, hasSelector);
    }
  }
}
