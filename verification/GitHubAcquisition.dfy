/** `GitHubRepositoryAdapter.fetch` after its metadata requests, in the source's own form: an object
    whose lists, counters and caches are updated in place by nested loops. Every method is proved
    against the step functions of `AcquisitionModel`; `Acquire` then carries the theorems of
    `AcquisitionSafety` to the running program. */
module GitHubAcquisition {
  import opened Text
  import opened RepositoryPaths
  import opened AcquisitionModel
  import opened AcquisitionSafety
  import opened AcquisitionProvenance
  import opened AcquisitionCoverage

  /** `GitHubRequestClient`: a counter that refuses requests beyond the limit. */
  class RequestClient {
    const limits: Limits
    const world: World
    var requestCount: nat

    /** The client after the repository, commit and tree requests. */
    constructor (limits: Limits, world: World)
      ensures this.limits == limits && this.world == world && requestCount == METADATA_REQUESTS
    {
      this.limits := limits;
      this.world := world;
      requestCount := METADATA_REQUESTS;
    }

    method GetJson(sha: string) returns (reply: Reply)
      modifies this
      ensures (reply, requestCount) == AcquisitionModel.GetJson(limits, world, old(requestCount), sha)
    {
      if requestCount >= limits.maxRequests {
        return RequestError("github_request_limit_reached", false);
      }
      reply := world(sha, requestCount);
      requestCount := requestCount + 1;
    }
  }

  /** The first loop of acquisition: sort the tree entries into candidates and reported gaps. */
  method Triage(entries: seq<Entry>, hasSelector: bool)
    returns (candidates: seq<Candidate>, unsafePaths: seq<string>, ignored: seq<string>, symlinks: seq<string>, submodules: seq<string>, unsupported: seq<string>)
    ensures candidates == Candidates(entries, hasSelector)
    ensures unsafePaths == PutAside(entries, hasSelector, Unsafe)
    ensures ignored == PutAside(entries, hasSelector, Ignored)
    ensures symlinks == PutAside(entries, hasSelector, Symlink)
    ensures submodules == PutAside(entries, hasSelector, Submodule)
    ensures unsupported == PutAside(entries, hasSelector, Unsupported)
  {
    hide Classify;
    candidates, unsafePaths, ignored, symlinks, submodules, unsupported := [], [], [], [], [], [];
    var i := 0;
    while i < |entries|
      invariant 0 <= i <= |entries|
      invariant candidates == Candidates(entries[..i], hasSelector)
      invariant unsafePaths == PutAside(entries[..i], hasSelector, Unsafe)
      invariant ignored == PutAside(entries[..i], hasSelector, Ignored)
      invariant symlinks == PutAside(entries[..i], hasSelector, Symlink)
      invariant submodules == PutAside(entries[..i], hasSelector, Submodule)
      invariant unsupported == PutAside(entries[..i], hasSelector, Unsupported)
    {
      var entry := entries[i];
      assert entries[..i + 1] == entries[..i] + [entry];
      TriageOneMore(entries[..i], entry, hasSelector);
      match Classify(entry, hasSelector) {
        case Unsafe => unsafePaths := unsafePaths + [entry.path];
        case Submodule => submodules := submodules + [entry.path];
        case Unsupported => unsupported := unsupported + [entry.path];
        case Ignored => ignored := ignored + [entry.path];
        case Symlink => symlinks := symlinks + [entry.path];
        case Skip =>
        case Chosen(candidate) => candidates := candidates + [candidate];
      }
      i := i + 1;
    }
    assert entries[..i] == entries;
  }

  lemma TriageOneMore(entries: seq<Entry>, entry: Entry, hasSelector: bool)
    ensures var triage := Classify(entry, hasSelector);
      && Candidates(entries + [entry], hasSelector) == Candidates(entries, hasSelector) + (if triage.Chosen? then [triage.candidate] else [])
      && forall reason :: PutAside(entries + [entry], hasSelector, reason) == PutAside(entries, hasSelector, reason) + (if triage == reason then [entry.path] else [])
  {
    hide Classify;
    if entries == [] {
      assert [] + [entry] == [entry] && [entry][1..] == [];
    } else {
      assert (entries + [entry])[1..] == entries[1..] + [entry];
      TriageOneMore(entries[1..], entry, hasSelector);
    }
  }

  class Acquisition {
    const limits: Limits
    const tree: Tree
    const selector: Option<Selector>
    const available: seq<Entry>
    const client: RequestClient

    var retainedCandidates: seq<Candidate>
    var candidateIndex: nat
    var queuedPaths: set<string>
    var manifest: Option<File>
    var files: seq<File>
    var totalBytes: nat
    var oversizedPaths: seq<string>
    var aggregateLimitedPaths: seq<string>
    var binaryPaths: seq<string>
    var lfsPointerPaths: seq<string>
    var failedPaths: seq<string>
    var partialFailures: seq<Failure>
    var rateLimited: bool
    var cachedBlobs: map<string, CachedBlob>
    var terminalBlobs: map<string, Terminal>

    ghost function Books(): Ledger
      reads this
    {
      Ledger(manifest, files, totalBytes, oversizedPaths, aggregateLimitedPaths, binaryPaths, lfsPointerPaths,
        failedPaths, partialFailures)
    }

    ghost function Snapshot(): State
      reads this, client
    {
      State(retainedCandidates, candidateIndex, queuedPaths, Books(), rateLimited, cachedBlobs, terminalBlobs,
        client.requestCount)
    }

    ghost predicate Valid()
      reads this, client
    {
      client.limits == limits && candidateIndex <= |retainedCandidates| <= limits.maxFiles
    }

    constructor (limits: Limits, tree: Tree, selector: Option<Selector>, client: RequestClient,
        candidates: seq<Candidate>)
      requires client.limits == limits && client.requestCount == METADATA_REQUESTS
      requires candidates == Candidates(tree.entries, selector.Some?)
      ensures Valid() && this.limits == limits && this.tree == tree && this.selector == selector && this.client == client
      ensures available == Available(tree.entries)
      ensures Snapshot() == Initial(limits, tree, selector.Some?)
    {
      this.limits := limits;
      this.tree := tree;
      this.selector := selector;
      this.client := client;
      this.available := Available(tree.entries);
      var retained := AcquisitionModel.Take(Sort(CandidateBefore, candidates), limits.maxFiles);
      retainedCandidates := retained;
      candidateIndex := 0;
      queuedPaths := set p | p in Paths(retained);
      manifest, files, totalBytes := None, [], 0;
      oversizedPaths, aggregateLimitedPaths, binaryPaths, lfsPointerPaths, failedPaths := [], [], [], [], [];
      partialFailures := [];
      rateLimited := false;
      cachedBlobs, terminalBlobs := map[], map[];
    }

    method RecordFailure(entry: Entry, code: string, retryable: bool)
      modifies this
      ensures Snapshot() == Remember(old(Snapshot()), entry, Failed(code, retryable), Fail(code, retryable).note)
    {
      if !retryable && !IsRateLimit(code) { terminalBlobs := terminalBlobs[entry.sha := Broken(code)]; }
      failedPaths := failedPaths + [entry.path];
      rateLimited := rateLimited || IsRateLimit(code);
      partialFailures := partialFailures + [Failure(entry.path, code, retryable)];
    }

    /** The tail of `retainEntry`, once a decoded blob is at hand. */
    method KeepBlob(entry: Entry, blob: CachedBlob)
      modifies this
      ensures var ruling := Keep(limits, old(totalBytes), blob);
        ruling.Meets? && Snapshot() == Remember(old(Snapshot()), entry, ruling.fate, ruling.note)
    {
      if totalBytes + blob.byteLength > limits.maxTotalBytes {
        aggregateLimitedPaths := aggregateLimitedPaths + [entry.path];
        return;
      }
      if StartsWith(blob.text, LFS_PREFIX) {
        terminalBlobs := terminalBlobs[entry.sha := Pointer];
        lfsPointerPaths := lfsPointerPaths + [entry.path];
        return;
      }
      var acquired := File(entry.path, entry.sha, blob.byteLength, blob.text);
      totalBytes := totalBytes + blob.byteLength;
      cachedBlobs := cachedBlobs[entry.sha := blob];
      if entry.path == MANIFEST_PATH { manifest := Some(acquired); } else { files := files + [acquired]; }
    }

    /** A memoised terminal outcome. */
    method RepeatOutcome(entry: Entry, terminal: Terminal)
      modifies this
      ensures var ruling := RuleTerminal(terminal);
        ruling.Meets? && Snapshot() == Remember(old(Snapshot()), entry, ruling.fate, ruling.note)
    {
      match terminal {
        case TooLarge => oversizedPaths := oversizedPaths + [entry.path];
        case NotText => binaryPaths := binaryPaths + [entry.path];
        case Pointer => lfsPointerPaths := lfsPointerPaths + [entry.path];
        case Broken(code) => RecordFailure(entry, code, false);
      }
    }

    /** A reply to a request of this round. */
    method SettleReply(entry: Entry, reply: Reply) returns (threw: bool)
      modifies this
      ensures var ruling := RuleReply(limits, old(totalBytes), reply);
        (threw <==> ruling.Threw?) && (ruling.Meets? ==> Snapshot() == Remember(old(Snapshot()), entry, ruling.fate, ruling.note))
    {
      threw := false;
      match reply {
        case ConfigurationError => threw := true;
        case RequestError(code, retryable) => RecordFailure(entry, code, retryable);
        case UnexpectedError => RecordFailure(entry, "github_blob_request_failed", true);
        case Malformed => RecordFailure(entry, "github_invalid_blob_response", false);
        case Blob(size, body) =>
          if size > limits.maxFileBytes {
            terminalBlobs := terminalBlobs[entry.sha := TooLarge];
            oversizedPaths := oversizedPaths + [entry.path];
          } else {
            match body {
              case BadEncoding => RecordFailure(entry, "github_invalid_blob_response", false);
              case NonText =>
                terminalBlobs := terminalBlobs[entry.sha := NotText];
                binaryPaths := binaryPaths + [entry.path];
              case Content(text) => KeepBlob(entry, CachedBlob(size, text));
            }
          }
      }
    }

    /** `retainEntry`; `threw` when a configuration error escapes. */
    method RetainEntry(c: Candidate, reply: Option<Reply>) returns (threw: bool)
      modifies this
      ensures var r := Retain(limits, old(Snapshot()), c, reply);
        (threw <==> r.None?) && (r.Some? ==> Snapshot() == r.value)
    {
      var entry := c.entry;
      threw := false;
      if entry.size.Some? && entry.size.value > limits.maxFileBytes {
        oversizedPaths := oversizedPaths + [entry.path];
      } else if entry.size.Some? && totalBytes + entry.size.value > limits.maxTotalBytes {
        aggregateLimitedPaths := aggregateLimitedPaths + [entry.path];
      } else if entry.sha in terminalBlobs {
        RepeatOutcome(entry, terminalBlobs[entry.sha]);
      } else if entry.sha in cachedBlobs {
        KeepBlob(entry, cachedBlobs[entry.sha]);
      } else if reply.None? {
        RecordFailure(entry, "github_blob_request_failed", true);
      } else {
        threw := SettleReply(entry, reply.value);
      }
    }

    /** Consumes the next candidate without fetching it. */
    method SkipNext(oversized: bool)
      requires Valid() && candidateIndex < |retainedCandidates|
      modifies this
      ensures Valid()
      ensures Snapshot() == TurnAway(old(Snapshot()), if oversized then Oversized else OverBudget)
    {
      var path := retainedCandidates[candidateIndex].entry.path;
      if oversized { oversizedPaths := oversizedPaths + [path]; }
      else { aggregateLimitedPaths := aggregateLimitedPaths + [path]; }
      candidateIndex := candidateIndex + 1;
    }

    method FormBatch() returns (batch: seq<Candidate>, pendingBlobs: seq<string>)
      requires Valid()
      modifies this
      ensures Valid()
      ensures AcquisitionModel.FormBatch(limits, old(Snapshot()), [], [], 0) == Formed(Snapshot(), batch, pendingBlobs)
    {
      hide Record;
      batch, pendingBlobs := [], [];
      var reservedBytes: nat := 0;
      while |batch| < BATCH_SIZE && candidateIndex < |retainedCandidates|
        invariant Valid()
        invariant AcquisitionModel.FormBatch(limits, Snapshot(), batch, pendingBlobs, reservedBytes)
                  == AcquisitionModel.FormBatch(limits, old(Snapshot()), [], [], 0)
        decreases |retainedCandidates| - candidateIndex
      {
        var c := retainedCandidates[candidateIndex];
        var entry := c.entry;
        var reservation := Reservation(limits, entry);
        var needsFetch := entry.sha !in cachedBlobs && entry.sha !in terminalBlobs && entry.sha !in pendingBlobs;
        if rateLimited || (needsFetch && client.requestCount + |pendingBlobs| >= limits.maxRequests) {
          SkipNext(false);
        } else if reservation > limits.maxFileBytes {
          SkipNext(true);
        } else if totalBytes + reservedBytes + reservation > limits.maxTotalBytes {
          if |batch| > 0 { return; }
          SkipNext(false);
        } else {
          batch := batch + [c];
          if needsFetch { pendingBlobs := pendingBlobs + [entry.sha]; }
          reservedBytes := reservedBytes + reservation;
          candidateIndex := candidateIndex + 1;
        }
      }
    }

    method FetchBlobs(pendingBlobs: seq<string>) returns (replies: map<string, Reply>)
      requires Valid()
      modifies client
      ensures Valid()
      ensures (replies, client.requestCount) == FetchAll(limits, client.world, old(client.requestCount), pendingBlobs)
    {
      replies := map[];
      var i := 0;
      while i < |pendingBlobs|
        invariant 0 <= i <= |pendingBlobs| && Valid()
        invariant (replies, client.requestCount) == FetchAll(limits, client.world, old(client.requestCount),
          pendingBlobs[..i])
      {
        var reply := client.GetJson(pendingBlobs[i]);
        replies := replies[pendingBlobs[i] := reply];
        i := i + 1;
        assert pendingBlobs[..i][..i - 1] == pendingBlobs[..i - 1];
      }
      assert pendingBlobs[..i] == pendingBlobs;
    }

    method RetainAll(batch: seq<Candidate>, replies: map<string, Reply>) returns (threw: bool)
      modifies this
      ensures var r := RetainBatch(limits, old(Snapshot()), batch, replies);
        (threw <==> r.None?) && (r.Some? ==> Snapshot() == r.value)
    {
      threw := false;
      var i := 0;
      while i < |batch|
        invariant 0 <= i <= |batch|
        invariant RetainBatch(limits, Snapshot(), batch[i..], replies) == RetainBatch(limits, old(Snapshot()), batch,
          replies)
      {
        var c := batch[i];
        assert batch[i..][1..] == batch[i + 1..];
        threw := RetainEntry(c, Lookup(replies, c.entry.sha));
        if threw { return; }
        i := i + 1;
      }
    }

    method InsertSelected(selected: seq<string>)
      requires Valid()
      modifies this
      ensures Valid() && candidateIndex == old(candidateIndex)
      ensures Snapshot() == Select(limits, available, old(Snapshot()), selected, [])
    {
      var additions: seq<Candidate> := [];
      var i := 0;
      while i < |selected|
        invariant 0 <= i <= |selected| && candidateIndex == old(candidateIndex) <= |retainedCandidates|
        invariant |retainedCandidates| + |additions| <= limits.maxFiles && client.limits == limits
        invariant Select(limits, available, Snapshot(), selected[i..], additions) == Select(limits, available,
          old(Snapshot()), selected, [])
      {
        var path := selected[i];
        assert selected[i..][1..] == selected[i + 1..];
        if path in queuedPaths {
          var pending := FindPending(retainedCandidates, candidateIndex, path);
          if pending.Some? {
            additions := additions + [retainedCandidates[pending.value]];
            retainedCandidates := RemoveAt(retainedCandidates, pending.value);
          }
        } else {
          var entry := FindEntry(available, path);
          if entry.Some? {
            var room := |retainedCandidates| + |additions| < limits.maxFiles;
            if !room {
              var evictable := FindReplaceable(retainedCandidates, candidateIndex, |retainedCandidates|);
              if evictable.None? {
                aggregateLimitedPaths := aggregateLimitedPaths + [path];
              } else {
                var replaced := retainedCandidates[evictable.value].entry.path;
                retainedCandidates := RemoveAt(retainedCandidates, evictable.value);
                aggregateLimitedPaths := aggregateLimitedPaths + [replaced];
                queuedPaths := queuedPaths - {replaced};
                room := true;
              }
            }
            if room {
              queuedPaths := queuedPaths + {path};
              additions := additions + [Candidate(entry.value, Config)];
            }
          }
        }
        i := i + 1;
      }
      retainedCandidates := retainedCandidates[..candidateIndex] + additions + retainedCandidates[candidateIndex..];
    }

    /** One turn of the outer loop. */
    method DoRound() returns (threw: bool)
      requires Valid() && candidateIndex < |retainedCandidates|
      modifies this, client
      ensures var r := Round(limits, client.world, selector, available, old(Snapshot()));
        (threw <==> r.None?) && (r.Some? ==> Snapshot() == r.value && Valid())
    {
      RoundAdvances(limits, client.world, selector, available, Snapshot());
      FormBatchPlaces(limits, Snapshot(), [], [], 0);
      var batch, pendingBlobs := FormBatch();
      var replies := FetchBlobs(pendingBlobs);
      RetainBatchPlaces(limits, Snapshot(), batch, replies);
      threw := RetainAll(batch, replies);
      if !threw && selector.Some? {
        InsertSelected(AcquisitionModel.Take(selector.value(files, EntryPaths(available), candidateIndex),
          SELECTION_SIZE));
      }
    }

    method Acquire() returns (threw: bool)
      requires Valid()
      modifies this, client
      ensures var r := Run(limits, client.world, selector, available, old(Snapshot()));
        (threw <==> r.None?) && (r.Some? ==> Snapshot() == r.value && Valid())
    {
      threw := false;
      while candidateIndex < |retainedCandidates|
        invariant Valid()
        invariant Run(limits, client.world, selector, available, Snapshot()) == Run(limits, client.world, selector,
          available, old(Snapshot()))
        decreases limits.maxFiles - candidateIndex
      {
        RoundAdvances(limits, client.world, selector, available, Snapshot());
        threw := DoRound();
        if threw { return; }
      }
    }
  }

  method CoverageComplete(run: Acquisition, candidateCount: nat, unsafePaths: seq<string>, ignored: seq<string>,
      symlinks: seq<string>, submodules: seq<string>, unsupported: seq<string>)
    returns (complete: bool)
    requires candidateCount == |Ordered(run.tree, run.selector.Some?)|
    requires unsafePaths == PutAside(run.tree.entries, run.selector.Some?, Unsafe)
    requires ignored == PutAside(run.tree.entries, run.selector.Some?, Ignored)
    requires symlinks == PutAside(run.tree.entries, run.selector.Some?, Symlink)
    requires submodules == PutAside(run.tree.entries, run.selector.Some?, Submodule)
    requires unsupported == PutAside(run.tree.entries, run.selector.Some?, Unsupported)
    ensures complete <==> SaysComplete(run.tree, run.selector.Some?, run.Snapshot())
  {
    var partial :=
      || run.tree.truncated || unsafePaths != [] || |run.retainedCandidates| < candidateCount
      || ignored != [] || unsupported != [] || submodules != []
      || !NoneAffects(symlinks) || !NoneAffects(run.oversizedPaths) || !NoneAffects(run.aggregateLimitedPaths)
      || !NoneAffects(run.binaryPaths) || !NoneAffects(run.lfsPointerPaths) || !NoneAffects(run.failedPaths);
    complete := !partial;
  }

  /** The result: the books of the run, with the files in path order, and the coverage verdict. */
  datatype Snapshot = Snapshot(books: Ledger, complete: bool, requests: nat)

  function PathOf(file: File): string { file.path }

  predicate CoversSources(tree: Tree, files: seq<File>) {
    forall k :: 0 <= k < |tree.entries| && MustBeFetched(tree.entries[k])
      ==> exists j :: 0 <= j < |files| && files[j].path == tree.entries[k].path
  }

  ghost predicate Frugal(limits: Limits, s: Snapshot) {
    && s.books.totalBytes == TotalBytes(AcquiredFiles(s.books)) <= limits.maxTotalBytes
    && s.requests <= limits.maxRequests
    && (forall p :: AcquiredPaths(s.books)[p] <= 1)
  }

  /** The result as it is returned: files sorted by path. */
  function Summary(final: State, complete: bool): Snapshot {
    Snapshot(final.ledger.(files := Sort(ByKey(PathOf), final.ledger.files)), complete, final.requests)
  }

  lemma CompleteCoversSources(limits: Limits, tree: Tree, world: World, selector: Option<Selector>, final: State)
    requires Run(limits, world, selector, Available(tree.entries), Initial(limits, tree, selector.Some?)) == Some(final)
    requires SaysComplete(tree, selector.Some?, final)
    ensures CoversSources(tree, Sort(ByKey(PathOf), final.ledger.files))
  {
    hide Classify, MustBeFetched, SaysComplete;
    var sorted := Sort(ByKey(PathOf), final.ledger.files);
    SortMembers(ByKey(PathOf), final.ledger.files);
    forall k | 0 <= k < |tree.entries| && MustBeFetched(tree.entries[k])
      ensures exists j :: 0 <= j < |sorted| && sorted[j].path == tree.entries[k].path
    {
      CompleteMeansComplete(limits, tree, world, selector, k);
      var j :| 0 <= j < |final.ledger.files| && final.ledger.files[j].path == tree.entries[k].path;
      assert final.ledger.files[j] in sorted;
    }
  }

  lemma EveryRunIsFrugal(limits: Limits, tree: Tree, world: World, selector: Option<Selector>, final: State,
      complete: bool)
    requires Run(limits, world, selector, Available(tree.entries), Initial(limits, tree, selector.Some?)) == Some(final)
    requires METADATA_REQUESTS <= limits.maxRequests && DistinctPaths(tree.entries)
    ensures Frugal(limits, Summary(final, complete))
  {
    hide Classify, Run, Initial, Inv, Tally, Bag, Available;
    var turnedAway := AcquisitionIsSafe(limits, tree, world, selector);
    var sorted := Sort(ByKey(PathOf), final.ledger.files);
    SortedFilesKeep(final.ledger, sorted);
    forall p
      ensures AcquiredPaths(final.ledger.(files := sorted))[p] <= 1
    {
      assert AcquiredPaths(final.ledger)[p] <= 1;
    }
  }

  /** The returned books are true of the tree and of what the provider said; a selector is a reason only
      when they account for as many paths as the file cap allows. */
  lemma SummaryIsGenuine(limits: Limits, tree: Tree, world: World, selector: Option<Selector>, final: State,
      complete: bool)
    requires Run(limits, world, selector, Available(tree.entries), Initial(limits, tree, selector.Some?)) == Some(final)
    requires METADATA_REQUESTS <= limits.maxRequests
    ensures var books := Summary(final, complete).books;
      && Genuine(limits, tree, world, final.requests, selector.Some?, books)
      && (DistinctPaths(tree.entries) ==>
            Genuine(limits, tree, world, final.requests, selector.Some? && Handled(books) >= limits.maxFiles, books))
  {
    hide Genuine, Run, Handled, DistinctPaths, Evicts;
    AcquisitionIsGenuine(limits, tree, world, selector);
    assert Evicts(limits, selector, final) ==> selector.Some? by { OnlySelectorsEvict(limits, selector, final); }
    if selector.Some? && !Evicts(limits, selector, final) {
      GenuineWithEviction(limits, tree, world, final.requests, final.ledger);
    }
    var sorted := Sort(ByKey(PathOf), final.ledger.files);
    SortMembers(ByKey(PathOf), final.ledger.files);
    SortedStaysGenuine(limits, tree, world, final.requests, selector.Some?, final.ledger, sorted);
    if DistinctPaths(tree.entries) {
      BooksAreGenuine(limits, tree, world, selector, final);
      SameHandled(final.ledger, sorted);
      SortedStaysGenuine(limits, tree, world, final.requests,
        selector.Some? && Handled(final.ledger) >= limits.maxFiles, final.ledger, sorted);
    }
  }

  lemma OnlySelectorsEvict(limits: Limits, selector: Option<Selector>, st: State)
    ensures Evicts(limits, selector, st) ==> selector.Some?
  {
  }

  lemma SameHandled(books: Ledger, files: seq<File>)
    requires |files| == |books.files|
    ensures Handled(books.(files := files)) == Handled(books)
  {
  }

  lemma WholeIgnoresFiles(limits: Limits, tree: Tree, books: Ledger, files: seq<File>)
    ensures Whole(limits, tree, books.(files := files)) <==> Whole(limits, tree, books)
  {
  }

  /** Acquisition from the tree to the coverage verdict. */
  method Fetch(limits: Limits, tree: Tree, world: World, selector: Option<Selector>) returns (result: Option<Snapshot>)
    requires METADATA_REQUESTS <= limits.maxRequests
    ensures result.Some? ==> (result.value.complete <==> Whole(limits, tree, result.value.books))
    ensures result.Some? && result.value.complete ==> CoversSources(tree, result.value.books.files)
    ensures result.Some? && DistinctPaths(tree.entries) ==> Frugal(limits, result.value)
    ensures result.Some? ==> InOrder(PathOf, result.value.books.files)
    ensures result.Some? ==> Genuine(limits, tree, world, result.value.requests, selector.Some?, result.value.books)
    ensures result.Some? && DistinctPaths(tree.entries) ==>
      Genuine(limits, tree, world, result.value.requests,
        selector.Some? && Handled(result.value.books) >= limits.maxFiles, result.value.books)
  {
    hide Classify, CoversSources, Frugal, SaysComplete, Genuine, Handled, Whole;
    var candidates, unsafePaths, ignored, symlinks, submodules, unsupported := Triage(tree.entries, selector.Some?);
    var client := new RequestClient(limits, world);
    var run := new Acquisition(limits, tree, selector, client, candidates);
    var threw := run.Acquire();
    if threw { return None; }
    ghost var final := run.Snapshot();
    var complete := CoverageComplete(run, |candidates|, unsafePaths, ignored, symlinks, submodules, unsupported);
    var sorted := Sort(ByKey(PathOf), run.files);
    SortInOrder(PathOf, run.files);
    if complete { CompleteCoversSources(limits, tree, world, selector, final); }
    var books := Ledger(run.manifest, sorted, run.totalBytes, run.oversizedPaths, run.aggregateLimitedPaths,
      run.binaryPaths, run.lfsPointerPaths, run.failedPaths, run.partialFailures);
    result := Some(Snapshot(books, complete, client.requestCount));
    VerdictIsExact(limits, tree, world, selector, final);
    WholeIgnoresFiles(limits, tree, final.ledger, sorted);
    SummaryIsGenuine(limits, tree, world, selector, final, complete);
    if DistinctPaths(tree.entries) {
      EveryRunIsFrugal(limits, tree, world, selector, final, complete);
    }
  }
}
