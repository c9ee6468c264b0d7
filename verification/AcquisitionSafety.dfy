/** What every acquisition run keeps, for any provider and any configuration selector: the byte,
    request and file budgets, one fate per consumed candidate, distinct acquired paths, and a
    coverage verdict that says "complete" only when nothing is missing. */
module AcquisitionSafety {
  import opened Text
  import opened RepositoryPaths
  import opened AcquisitionModel

  // ----- bookkeeping vocabulary -----

  function Bag(candidates: seq<Candidate>): multiset<string> {
    multiset(Paths(candidates))
  }

  function FilePaths(files: seq<File>): seq<string> {
    seq(|files|, i requires 0 <= i < |files| => files[i].path)
  }

  /** The root manifest is kept apart from the other files. */
  function AcquiredFiles(ledger: Ledger): seq<File> {
    (if ledger.manifest.Some? then [ledger.manifest.value] else []) + ledger.files
  }

  function AcquiredPaths(ledger: Ledger): multiset<string> {
    multiset(FilePaths(AcquiredFiles(ledger)))
  }

  function TotalBytes(files: seq<File>): nat {
    if files == [] then 0 else TotalBytes(files[..|files| - 1]) + files[|files| - 1].byteLength
  }

  function One(p: string, q: string): nat {
    if p == q then 1 else 0
  }

  /** How often a path has met a fate. */
  function Tally(ledger: Ledger, p: string): nat {
    AcquiredPaths(ledger)[p] + multiset(ledger.oversized)[p] + multiset(ledger.overBudget)[p]
    + multiset(ledger.binary)[p] + multiset(ledger.lfs)[p] + multiset(ledger.failed)[p]
  }

  /** At most one candidate carries this path. */
  predicate Unique(st: State, aside: seq<Candidate>, p: string) {
    && Bag(st.retained)[p] + Bag(aside)[p] <= 1
    && (p in st.queued <==> Bag(st.retained)[p] + Bag(aside)[p] == 1)
  }

  /** Each consumed candidate that is not `waiting` has met one fate; the rest of the tally are
      paths the selector evicted or could not place, all of them reported as over budget. */
  predicate Balanced(st: State, waiting: seq<Candidate>, turnedAway: multiset<string>, p: string)
    requires st.next <= |st.retained|
  {
    && Tally(st.ledger, p) + Bag(waiting)[p] == Bag(st.retained[..st.next])[p] + turnedAway[p]
    && turnedAway[p] <= multiset(st.ledger.overBudget)[p]
  }

  predicate WithinBudgets(limits: Limits, st: State) {
    && st.ledger.totalBytes == TotalBytes(AcquiredFiles(st.ledger)) <= limits.maxTotalBytes
    && METADATA_REQUESTS <= st.requests <= limits.maxRequests
  }

  /** `waiting` are batch members still to be retained, `aside` the selector's reordered or new
      candidates, `turnedAway` the paths the selector evicted or could not place. */
  ghost predicate Inv(limits: Limits, st: State, waiting: seq<Candidate>, aside: seq<Candidate>,
      turnedAway: multiset<string>) {
    && st.next <= |st.retained|
    && |st.retained| + |aside| <= limits.maxFiles
    && (forall p :: Unique(st, aside, p))
    && (forall p :: Balanced(st, waiting, turnedAway, p))
    && (st.ledger.manifest.Some? ==> st.ledger.manifest.value.path == MANIFEST_PATH)
    && WithinBudgets(limits, st)
  }

  // ----- sequence facts -----

  lemma PathsAppend(a: seq<Candidate>, b: seq<Candidate>)
    ensures Paths(a + b) == Paths(a) + Paths(b)
    ensures Bag(a + b) == Bag(a) + Bag(b)
  {
  }

  lemma BagSplit(s: seq<Candidate>, i: nat, p: string)
    requires i < |s|
    ensures Bag(s[..i + 1])[p] == Bag(s[..i])[p] + One(p, s[i].entry.path)
    ensures Bag(s)[p] == Bag(RemoveAt(s, i))[p] + One(p, s[i].entry.path)
  {
    assert Paths([s[i]]) == [s[i].entry.path];
    assert s[..i + 1] == s[..i] + [s[i]];
    PathsAppend(s[..i], [s[i]]);
    assert s == s[..i + 1] + s[i + 1..];
    PathsAppend(s[..i + 1], s[i + 1..]);
    PathsAppend(s[..i], s[i + 1..]);
  }

  lemma BagPrefix(s: seq<Candidate>, n: nat, p: string)
    requires n <= |s|
    ensures Bag(s)[p] == Bag(s[..n])[p] + Bag(s[n..])[p]
  {
    assert s == s[..n] + s[n..];
    PathsAppend(s[..n], s[n..]);
  }

  lemma AsideGrows(aside: seq<Candidate>, c: Candidate, p: string)
    ensures Bag(aside + [c])[p] == Bag(aside)[p] + One(p, c.entry.path)
  {
    PathsAppend(aside, [c]);
    assert Paths([c]) == [c.entry.path];
  }

  lemma BytesAppend(a: seq<File>, f: File)
    ensures TotalBytes(a + [f]) == TotalBytes(a) + f.byteLength
  {
    assert (a + [f])[..|a|] == a;
  }

  lemma BytesPrepend(f: File, a: seq<File>)
    ensures TotalBytes([f] + a) == f.byteLength + TotalBytes(a)
  {
    if a == [] { assert [f] + a == [f]; }
    else {
      var n := |a| - 1;
      assert ([f] + a)[..n + 1] == [f] + a[..n];
      BytesPrepend(f, a[..n]);
    }
  }

  lemma {:induction false} BytesConcat(a: seq<File>, b: seq<File>)
    ensures TotalBytes(a + b) == TotalBytes(a) + TotalBytes(b)
  {
    if b == [] { assert a + b == a; }
    else {
      var n := |b| - 1;
      assert a + b == (a + b[..n]) + [b[n]];
      BytesConcat(a, b[..n]);
      BytesAppend(a + b[..n], b[n]);
    }
  }

  lemma FilePathsAppend(a: seq<File>, b: seq<File>)
    ensures FilePaths(a + b) == FilePaths(a) + FilePaths(b)
  {
  }

  lemma {:induction false} SplitBytes(s: seq<File>, i: nat)
    requires i < |s|
    ensures TotalBytes(s) == TotalBytes(RemoveAt(s, i)) + s[i].byteLength
  {
    assert s == (s[..i] + [s[i]]) + s[i + 1..];
    BytesConcat(s[..i] + [s[i]], s[i + 1..]);
    BytesAppend(s[..i], s[i]);
    BytesConcat(s[..i], s[i + 1..]);
  }

  lemma {:induction false} SplitFilePaths(s: seq<File>, i: nat, p: string)
    requires i < |s|
    ensures multiset(FilePaths(s))[p] == multiset(FilePaths(RemoveAt(s, i)))[p] + One(p, s[i].path)
  {
    assert s == (s[..i] + [s[i]]) + s[i + 1..];
    FilePathsAppend(s[..i] + [s[i]], s[i + 1..]);
    FilePathsAppend(s[..i], [s[i]]);
    FilePathsAppend(s[..i], s[i + 1..]);
    assert FilePaths([s[i]]) == [s[i].path];
  }

  /** Reordering the files changes neither the byte total nor how often a path occurs. */
  lemma {:induction false} FilesOfPermutation(a: seq<File>, b: seq<File>, p: string)
    requires multiset(a) == multiset(b)
    ensures TotalBytes(a) == TotalBytes(b)
    ensures multiset(FilePaths(a))[p] == multiset(FilePaths(b))[p]
  {
    if a == [] {
      assert |b| == |multiset(b)|;
    } else {
      var i := MatchInPermutation(a, b);
      assert RemoveAt(a, 0) == a[1..];
      FilesOfPermutation(a[1..], RemoveAt(b, i), p);
      SplitBytes(a, 0);
      SplitBytes(b, i);
      SplitFilePaths(a, 0, p);
      SplitFilePaths(b, i, p);
    }
  }

  /** The file list is sorted before it is returned. */
  lemma SortedFilesKeep(ledger: Ledger, sorted: seq<File>)
    requires multiset(sorted) == multiset(ledger.files)
    ensures TotalBytes(AcquiredFiles(ledger.(files := sorted))) == TotalBytes(AcquiredFiles(ledger))
    ensures forall p :: AcquiredPaths(ledger.(files := sorted))[p] == AcquiredPaths(ledger)[p]
  {
    var first := if ledger.manifest.Some? then [ledger.manifest.value] else [];
    assert multiset(first + sorted) == multiset(first + ledger.files);
    forall p
      ensures AcquiredPaths(ledger.(files := sorted))[p] == AcquiredPaths(ledger)[p]
    {
      FilesOfPermutation(first + sorted, first + ledger.files, p);
    }
    FilesOfPermutation(first + sorted, first + ledger.files, "");
  }

  // ----- one fate per candidate -----

  /** Recording a fate adds the path to exactly one list, and bytes only for an acquired file. */
  lemma {:induction false} RecordAddsOnce(ledger: Ledger, entry: Entry, fate: Fate, p: string)
    requires fate.Acquired? && entry.path == MANIFEST_PATH ==> ledger.manifest.None?
    ensures var l := Record(ledger, entry, fate);
      && Tally(l, p) == Tally(ledger, p) + One(p, entry.path)
      && multiset(l.overBudget)[p] == multiset(ledger.overBudget)[p] + (if fate.OverBudget? then One(p, entry.path) else 0)
  {
    if fate.Acquired? {
      var file := File(entry.path, entry.sha, fate.blob.byteLength, fate.blob.text);
      var l := Record(ledger, entry, fate);
      if entry.path == MANIFEST_PATH {
        assert FilePaths(AcquiredFiles(l)) == [entry.path] + FilePaths(AcquiredFiles(ledger));
      } else {
        assert FilePaths(AcquiredFiles(l)) == FilePaths(AcquiredFiles(ledger)) + [entry.path];
      }
    }
  }

  lemma RecordBytes(ledger: Ledger, entry: Entry, fate: Fate)
    requires fate.Acquired? && entry.path == MANIFEST_PATH ==> ledger.manifest.None?
    ensures var l := Record(ledger, entry, fate);
      var added := if fate.Acquired? then fate.blob.byteLength else 0;
      && TotalBytes(AcquiredFiles(l)) == TotalBytes(AcquiredFiles(ledger)) + added
      && l.totalBytes == ledger.totalBytes + added
  {
    if fate.Acquired? {
      var file := File(entry.path, entry.sha, fate.blob.byteLength, fate.blob.text);
      var l := Record(ledger, entry, fate);
      if entry.path == MANIFEST_PATH {
        assert AcquiredFiles(l) == [file] + AcquiredFiles(ledger);
        BytesPrepend(file, AcquiredFiles(ledger));
      } else {
        assert AcquiredFiles(l) == AcquiredFiles(ledger) + [file];
        BytesAppend(AcquiredFiles(ledger), file);
      }
    } else {
      assert AcquiredFiles(Record(ledger, entry, fate)) == AcquiredFiles(ledger);
    }
  }

  /** A candidate that is being settled has not been acquired before. */
  lemma NotYetAcquired(limits: Limits, st: State, c: Candidate, rest: seq<Candidate>, turnedAway: multiset<string>)
    requires Inv(limits, st, [c] + rest, [], turnedAway)
    ensures c.entry.path == MANIFEST_PATH ==> st.ledger.manifest.None?
  {
    var p := MANIFEST_PATH;
    assert Unique(st, [], p) && Balanced(st, [c] + rest, turnedAway, p);
    BagPrefix(st.retained, st.next, p);
    if c.entry.path == p && st.ledger.manifest.Some? {
      ManifestIsCounted(st.ledger);
      HeadIsCounted(c, rest);
    }
  }

  lemma ManifestIsCounted(ledger: Ledger)
    requires ledger.manifest.Some? && ledger.manifest.value.path == MANIFEST_PATH
    ensures AcquiredPaths(ledger)[MANIFEST_PATH] >= 1
  {
    assert FilePaths(AcquiredFiles(ledger))[0] == MANIFEST_PATH;
  }

  lemma HeadIsCounted(c: Candidate, rest: seq<Candidate>)
    ensures Bag([c] + rest)[c.entry.path] >= 1
  {
    assert Paths([c] + rest)[0] == c.entry.path;
  }

  lemma {:induction false} TurnAwayKeeps(limits: Limits, st: State, fate: Fate, waiting: seq<Candidate>,
      turnedAway: multiset<string>)
    requires Inv(limits, st, waiting, [], turnedAway) && st.next < |st.retained|
    requires fate.OverBudget? || fate.Oversized?
    ensures Inv(limits, TurnAway(st, fate), waiting, [], turnedAway)
  {
    hide Tally, Bag, TotalBytes, AcquiredFiles;
    var entry := st.retained[st.next].entry;
    var st' := TurnAway(st, fate);
    RecordBytes(st.ledger, entry, fate);
    forall p ensures Balanced(st', waiting, turnedAway, p) {
      assert Balanced(st, waiting, turnedAway, p);
      RecordAddsOnce(st.ledger, entry, fate, p);
      BagSplit(st.retained, st.next, p);
    }
    forall p ensures Unique(st', [], p) { assert Unique(st, [], p); }
  }

  lemma {:induction false} TakeIntoBatchKeeps(limits: Limits, st: State, batch: seq<Candidate>,
      turnedAway: multiset<string>)
    requires Inv(limits, st, batch, [], turnedAway) && st.next < |st.retained|
    ensures Inv(limits, st.(next := st.next + 1), batch + [st.retained[st.next]], [], turnedAway)
  {
    hide Tally, Bag, TotalBytes, AcquiredFiles;
    var c := st.retained[st.next];
    var st' := st.(next := st.next + 1);
    forall p ensures Balanced(st', batch + [c], turnedAway, p) {
      assert Balanced(st, batch, turnedAway, p);
      BagSplit(st.retained, st.next, p);
      AsideGrows(batch, c, p);
    }
    forall p ensures Unique(st', [], p) { assert Unique(st, [], p); }
  }

  lemma {:induction false} FormBatchKeeps(limits: Limits, st: State, batch: seq<Candidate>, pending: seq<string>,
      reserved: nat, turnedAway: multiset<string>)
    requires Inv(limits, st, batch, [], turnedAway) && st.requests + |pending| <= limits.maxRequests
    ensures var f := FormBatch(limits, st, batch, pending, reserved);
      Inv(limits, f.st, f.batch, [], turnedAway) && f.st.requests + |f.pending| <= limits.maxRequests
    decreases |st.retained| - st.next
  {
    if |batch| < BATCH_SIZE && st.next < |st.retained| {
      var c := st.retained[st.next];
      match Decide(limits, st, batch, pending, reserved) {
        case Close =>
        case TurnDown(fate) =>
          TurnAwayKeeps(limits, st, fate, batch, turnedAway);
          FormBatchKeeps(limits, TurnAway(st, fate), batch, pending, reserved, turnedAway);
        case Accept =>
          TakeIntoBatchKeeps(limits, st, batch, turnedAway);
          FormBatchKeeps(limits, st.(next := st.next + 1), batch + [c],
            PendingWith(st, pending, c.entry.sha), reserved + Reservation(limits, c.entry), turnedAway);
      }
    }
  }

  lemma RuleFits(limits: Limits, total: nat, entry: Entry, terminal: Option<Terminal>, cached: Option<CachedBlob>,
      reply: Option<Reply>)
    ensures var r := Rule(limits, total, entry, terminal, cached, reply);
      r.Meets? && r.fate.Acquired? ==> total + r.fate.blob.byteLength <= limits.maxTotalBytes
  {
  }

  lemma {:induction false} RememberKeeps(limits: Limits, st: State, c: Candidate, rest: seq<Candidate>, fate: Fate,
      note: Option<Terminal>, turnedAway: multiset<string>)
    requires Inv(limits, st, [c] + rest, [], turnedAway)
    requires fate.Acquired? ==> st.ledger.totalBytes + fate.blob.byteLength <= limits.maxTotalBytes
    ensures Inv(limits, Remember(st, c.entry, fate, note), rest, [], turnedAway)
  {
    hide Tally, TotalBytes, AcquiredFiles, Bag, Balanced;
    var st' := Remember(st, c.entry, fate, note);
    NotYetAcquired(limits, st, c, rest, turnedAway);
    RecordBytes(st.ledger, c.entry, fate);
    forall p ensures Balanced(st', rest, turnedAway, p) {
      assert Balanced(st, [c] + rest, turnedAway, p);
      RememberBalances(st, c, rest, fate, note, turnedAway, p);
    }
    forall p ensures Unique(st', [], p) { assert Unique(st, [], p); }
  }

  lemma {:induction false} RememberBalances(st: State, c: Candidate, rest: seq<Candidate>, fate: Fate,
      note: Option<Terminal>, turnedAway: multiset<string>, p: string)
    requires st.next <= |st.retained| && Balanced(st, [c] + rest, turnedAway, p)
    requires fate.Acquired? && c.entry.path == MANIFEST_PATH ==> st.ledger.manifest.None?
    ensures Balanced(Remember(st, c.entry, fate, note), rest, turnedAway, p)
  {
    hide Tally;
    RecordAddsOnce(st.ledger, c.entry, fate, p);
    PathsAppend([c], rest);
    assert Paths([c]) == [c.entry.path];
  }

  lemma {:induction false} RetainBatchKeeps(limits: Limits, st: State, batch: seq<Candidate>,
      replies: map<string, Reply>, turnedAway: multiset<string>)
    requires Inv(limits, st, batch, [], turnedAway)
    ensures var r := RetainBatch(limits, st, batch, replies);
      r.Some? ==> Inv(limits, r.value, [], [], turnedAway)
    decreases |batch|
  {
    if batch != [] {
      var c := batch[0];
      var sha := c.entry.sha;
      assert batch == [c] + batch[1..];
      var ruling := Rule(limits, st.ledger.totalBytes, c.entry, Lookup(st.terminal, sha), Lookup(st.cached, sha),
        Lookup(replies, sha));
      RuleFits(limits, st.ledger.totalBytes, c.entry, Lookup(st.terminal, sha), Lookup(st.cached, sha),
        Lookup(replies, sha));
      if ruling.Meets? {
        RememberKeeps(limits, st, c, batch[1..], ruling.fate, ruling.note, turnedAway);
        RetainBatchKeeps(limits, Remember(st, c.entry, ruling.fate, ruling.note), batch[1..], replies, turnedAway);
      }
    }
  }

  lemma {:induction false} FetchAllCounts(limits: Limits, world: World, requests: nat, pending: seq<string>)
    requires requests + |pending| <= limits.maxRequests
    ensures var (replies, count) := FetchAll(limits, world, requests, pending);
      && count == requests + |pending|
      && (forall sha :: sha in replies <==> sha in pending)
      && (forall sha :: sha in pending ==> exists n :: requests <= n < count && replies[sha] == world(sha, n))
    decreases |pending|
  {
    if pending != [] {
      var last := |pending| - 1;
      FetchAllCounts(limits, world, requests, pending[..last]);
      var (replies, count) := FetchAll(limits, world, requests, pending);
      forall sha | sha in pending
        ensures sha in replies && exists n :: requests <= n < count && replies[sha] == world(sha, n)
      {
        if sha == pending[last] { assert replies[sha] == world(sha, requests + last); }
      }
    }
  }

  // ----- the selector -----

  lemma OverBudgetPathAddsOnce(ledger: Ledger, path: string, p: string)
    ensures var l := OverBudgetPath(ledger, path);
      && Tally(l, p) == Tally(ledger, p) + One(p, path)
      && multiset(l.overBudget)[p] == multiset(ledger.overBudget)[p] + One(p, path)
      && AcquiredFiles(l) == AcquiredFiles(ledger)
  {
  }

  lemma BalancedAfterSplice(st: State, retained: seq<Candidate>, queued: set<string>, turnedAway: multiset<string>)
    requires st.next <= |st.retained| && st.next <= |retained| && retained[..st.next] == st.retained[..st.next]
    requires forall p :: Balanced(st, [], turnedAway, p)
    ensures forall p :: Balanced(st.(retained := retained, queued := queued), [], turnedAway, p)
  {
    forall p ensures Balanced(st.(retained := retained, queued := queued), [], turnedAway, p) {
      assert Balanced(st, [], turnedAway, p);
    }
  }

  /** Moving a pending candidate in front. */
  lemma MoveKeeps(limits: Limits, st: State, i: nat, aside: seq<Candidate>, turnedAway: multiset<string>)
    requires Inv(limits, st, [], aside, turnedAway) && st.next <= i < |st.retained|
    ensures Inv(limits, st.(retained := RemoveAt(st.retained, i)), [], aside + [st.retained[i]], turnedAway)
  {
    var st' := st.(retained := RemoveAt(st.retained, i));
    assert st'.retained[..st.next] == st.retained[..st.next];
    BalancedAfterSplice(st, st'.retained, st.queued, turnedAway);
    forall p ensures Unique(st', aside + [st.retained[i]], p) {
      assert Unique(st, aside, p);
      BagSplit(st.retained, i, p);
      AsideGrows(aside, st.retained[i], p);
    }
  }

  /** Queueing a new candidate while there is room. */
  lemma AddKeeps(limits: Limits, st: State, added: Candidate, aside: seq<Candidate>, turnedAway: multiset<string>)
    requires Inv(limits, st, [], aside, turnedAway) && |st.retained| + |aside| < limits.maxFiles
    requires added.entry.path !in st.queued
    ensures Inv(limits, st.(queued := st.queued + {added.entry.path}), [], aside + [added], turnedAway)
  {
    var st' := st.(queued := st.queued + {added.entry.path});
    BalancedAfterSplice(st, st.retained, st'.queued, turnedAway);
    forall p ensures Unique(st', aside + [added], p) {
      assert Unique(st, aside, p);
      AsideGrows(aside, added, p);
    }
  }

  /** Reporting a path the file cap leaves no room for. */
  lemma RefuseKeeps(limits: Limits, st: State, path: string, aside: seq<Candidate>, turnedAway: multiset<string>)
    requires Inv(limits, st, [], aside, turnedAway)
    ensures Inv(limits, st.(ledger := OverBudgetPath(st.ledger, path)), [], aside, turnedAway + multiset{path})
  {
    var st' := st.(ledger := OverBudgetPath(st.ledger, path));
    forall p ensures Balanced(st', [], turnedAway + multiset{path}, p) {
      assert Balanced(st, [], turnedAway, p);
      OverBudgetPathAddsOnce(st.ledger, path, p);
    }
    forall p ensures Unique(st', aside, p) { assert Unique(st, aside, p); }
    OverBudgetPathAddsOnce(st.ledger, path, path);
  }

  /** Dropping a pending candidate whose path has been reported. */
  lemma DropKeeps(limits: Limits, st: State, i: nat, aside: seq<Candidate>, turnedAway: multiset<string>)
    requires Inv(limits, st, [], aside, turnedAway) && st.next <= i < |st.retained|
    ensures Inv(limits, st.(retained := RemoveAt(st.retained, i), queued := st.queued - {st.retained[i].entry.path}),
      [], aside, turnedAway)
  {
    var st' := st.(retained := RemoveAt(st.retained, i), queued := st.queued - {st.retained[i].entry.path});
    assert st'.retained[..st.next] == st.retained[..st.next];
    BalancedAfterSplice(st, st'.retained, st'.queued, turnedAway);
    forall p ensures Unique(st', aside, p) {
      assert Unique(st, aside, p);
      assert Unique(st, aside, st.retained[i].entry.path);
      BagSplit(st.retained, i, p);
    }
  }

  lemma MergeBackKeeps(limits: Limits, st: State, aside: seq<Candidate>, turnedAway: multiset<string>)
    requires Inv(limits, st, [], aside, turnedAway)
    ensures Inv(limits, st.(retained := st.retained[..st.next] + aside + st.retained[st.next..]), [], [], turnedAway)
  {
    var st' := st.(retained := st.retained[..st.next] + aside + st.retained[st.next..]);
    assert st'.retained[..st.next] == st.retained[..st.next];
    BalancedAfterSplice(st, st'.retained, st.queued, turnedAway);
    forall p ensures Unique(st', [], p) {
      assert Unique(st, aside, p);
      BagPrefix(st.retained, st.next, p);
      PathsAppend(st.retained[..st.next] + aside, st.retained[st.next..]);
      PathsAppend(st.retained[..st.next], aside);
    }
  }

  lemma {:induction false} SelectKeeps(limits: Limits, available: seq<Entry>, st: State, selected: seq<string>,
      aside: seq<Candidate>, turnedAway: multiset<string>)
    returns (turnedAway': multiset<string>)
    requires Inv(limits, st, [], aside, turnedAway)
    ensures Inv(limits, Select(limits, available, st, selected, aside), [], [], turnedAway')
    decreases |selected|
  {
    turnedAway' := turnedAway;
    if selected == [] {
      MergeBackKeeps(limits, st, aside, turnedAway);
    } else {
      var path := selected[0];
      var rest := selected[1..];
      if path in st.queued {
        var i := FindPending(st.retained, st.next, path);
        if i.Some? {
          MoveKeeps(limits, st, i.value, aside, turnedAway);
          turnedAway' := SelectKeeps(limits, available, st.(retained := RemoveAt(st.retained, i.value)), rest,
            aside + [st.retained[i.value]], turnedAway);
        } else {
          turnedAway' := SelectKeeps(limits, available, st, rest, aside, turnedAway);
        }
      } else {
        var entry := FindEntry(available, path);
        if entry.None? {
          turnedAway' := SelectKeeps(limits, available, st, rest, aside, turnedAway);
        } else if |st.retained| + |aside| >= limits.maxFiles {
          var i := FindReplaceable(st.retained, st.next, |st.retained|);
          if i.None? {
            RefuseKeeps(limits, st, path, aside, turnedAway);
            turnedAway' := SelectKeeps(limits, available, st.(ledger := OverBudgetPath(st.ledger, path)), rest, aside,
              turnedAway + multiset{path});
          } else {
            var added := Candidate(entry.value, Config);
            var replaced := st.retained[i.value].entry.path;
            var refused := st.(ledger := OverBudgetPath(st.ledger, replaced));
            var dropped := refused.(retained := RemoveAt(st.retained, i.value), queued := st.queued - {replaced});
            RefuseKeeps(limits, st, replaced, aside, turnedAway);
            DropKeeps(limits, refused, i.value, aside, turnedAway + multiset{replaced});
            AddKeeps(limits, dropped, added, aside, turnedAway + multiset{replaced});
            turnedAway' := SelectKeeps(limits, available, dropped.(queued := dropped.queued + {path}), rest,
              aside + [added], turnedAway + multiset{replaced});
          }
        } else {
          var added := Candidate(entry.value, Config);
          AddKeeps(limits, st, added, aside, turnedAway);
          turnedAway' := SelectKeeps(limits, available, st.(queued := st.queued + {path}), rest, aside + [added],
            turnedAway);
        }
      }
    }
  }

  // ----- whole rounds and whole runs -----

  lemma RoundKeeps(limits: Limits, world: World, selector: Option<Selector>, available: seq<Entry>, st: State,
      turnedAway: multiset<string>)
    returns (turnedAway': multiset<string>)
    requires Inv(limits, st, [], [], turnedAway) && st.next < |st.retained|
    ensures var r := Round(limits, world, selector, available, st);
      r.Some? ==> Inv(limits, r.value, [], [], turnedAway')
    ensures selector.None? ==> turnedAway' == turnedAway
  {
    turnedAway' := turnedAway;
    var formed := FormBatch(limits, st, [], [], 0);
    FormBatchPlaces(limits, st, [], [], 0);
    FormBatchKeeps(limits, st, [], [], 0, turnedAway);
    FetchAllCounts(limits, world, formed.st.requests, formed.pending);
    var (replies, requests) := FetchAll(limits, world, formed.st.requests, formed.pending);
    var fetched := formed.st.(requests := requests);
    CountingRequestsKeeps(limits, formed.st, formed.batch, requests, turnedAway);
    RetainBatchKeeps(limits, fetched, formed.batch, replies, turnedAway);
    var retained := RetainBatch(limits, fetched, formed.batch, replies);
    if retained.Some? && selector.Some? {
      var s := retained.value;
      turnedAway' := SelectKeeps(limits, available, s,
        Take(selector.value(s.ledger.files, EntryPaths(available), s.next), SELECTION_SIZE), [], turnedAway);
    }
  }

  lemma CountingRequestsKeeps(limits: Limits, st: State, waiting: seq<Candidate>, requests: nat,
      turnedAway: multiset<string>)
    requires Inv(limits, st, waiting, [], turnedAway) && st.requests <= requests <= limits.maxRequests
    ensures Inv(limits, st.(requests := requests), waiting, [], turnedAway)
  {
    var st' := st.(requests := requests);
    forall p ensures Balanced(st', waiting, turnedAway, p) { assert Balanced(st, waiting, turnedAway, p); }
    forall p ensures Unique(st', [], p) { assert Unique(st, [], p); }
  }

  lemma {:induction false} RunKeeps(limits: Limits, world: World, selector: Option<Selector>, available: seq<Entry>,
      st: State, turnedAway: multiset<string>)
    returns (turnedAway': multiset<string>)
    requires Inv(limits, st, [], [], turnedAway)
    ensures var r := Run(limits, world, selector, available, st);
      r.Some? ==> Inv(limits, r.value, [], [], turnedAway') && r.value.next == |r.value.retained|
    ensures selector.None? ==> turnedAway' == turnedAway
    decreases limits.maxFiles - st.next
  {
    turnedAway' := turnedAway;
    if st.next < |st.retained| {
      RoundAdvances(limits, world, selector, available, st);
      turnedAway' := RoundKeeps(limits, world, selector, available, st, turnedAway);
      var st' := Round(limits, world, selector, available, st);
      if st'.Some? { turnedAway' := RunKeeps(limits, world, selector, available, st'.value, turnedAway'); }
    }
  }

  // ----- the starting state -----

  ghost predicate DistinctPaths(entries: seq<Entry>) {
    forall p :: multiset(EntryPaths(entries))[p] <= 1
  }

  lemma ClassifyKeepsPath(entry: Entry, hasSelector: bool)
    ensures Classify(entry, hasSelector).Chosen? ==> Classify(entry, hasSelector).candidate.entry == entry
  {
  }

  lemma {:induction false} CandidatePathsComeFromTree(entries: seq<Entry>, hasSelector: bool, p: string)
    ensures Bag(Candidates(entries, hasSelector))[p] <= multiset(EntryPaths(entries))[p]
  {
    hide Classify;
    if entries != [] {
      ClassifyKeepsPath(entries[0], hasSelector);
      CandidatePathsComeFromTree(entries[1..], hasSelector, p);
      assert EntryPaths(entries) == [entries[0].path] + EntryPaths(entries[1..]);
      var triage := Classify(entries[0], hasSelector);
      if triage.Chosen? {
        PathsAppend([triage.candidate], Candidates(entries[1..], hasSelector));
        assert Paths([triage.candidate]) == [entries[0].path];
      }
    }
  }

  lemma {:induction false} BagOfPermutation(a: seq<Candidate>, b: seq<Candidate>, p: string)
    requires multiset(a) == multiset(b)
    ensures Bag(a)[p] == Bag(b)[p]
  {
    if a == [] {
      assert |b| == |multiset(b)|;
    } else {
      var i := MatchInPermutation(a, b);
      BagOfPermutation(a[1..], RemoveAt(b, i), p);
      BagSplit(b, i, p);
      BagSplit(a, 0, p);
      assert RemoveAt(a, 0) == a[1..];
    }
  }

  lemma InitialHolds(limits: Limits, tree: Tree, hasSelector: bool)
    requires DistinctPaths(tree.entries) && METADATA_REQUESTS <= limits.maxRequests
    ensures Inv(limits, Initial(limits, tree, hasSelector), [], [], multiset{})
  {
    var st := Initial(limits, tree, hasSelector);
    var ordered := Ordered(tree, hasSelector);
    forall p ensures Unique(st, [], p) {
      CandidatePathsComeFromTree(tree.entries, hasSelector, p);
      BagOfPermutation(ordered, Candidates(tree.entries, hasSelector), p);
      BagPrefix(ordered, |st.retained|, p);
      assert ordered[..|st.retained|] == st.retained;
    }
  }

  /** Safety of a whole acquisition, for every provider and every selector: at its end, and by
      `RoundKeeps` after every round, the byte total is the sum over the acquired files and within
      budget, requests and candidates are within theirs, no path is acquired twice, and every
      candidate met exactly one fate, except that `turnedAway` paths were reported in addition. */
  lemma AcquisitionIsSafe(limits: Limits, tree: Tree, world: World, selector: Option<Selector>)
    returns (turnedAway: multiset<string>)
    requires DistinctPaths(tree.entries) && METADATA_REQUESTS <= limits.maxRequests
    ensures var r := Run(limits, world, selector, Available(tree.entries), Initial(limits, tree, selector.Some?));
      r.Some? ==>
        var s := r.value;
        && s.ledger.totalBytes == TotalBytes(AcquiredFiles(s.ledger)) <= limits.maxTotalBytes
        && s.requests <= limits.maxRequests
        && |s.retained| <= limits.maxFiles
        && (forall p :: AcquiredPaths(s.ledger)[p] <= 1)
        && (forall p :: Tally(s.ledger, p) == Bag(s.retained)[p] + turnedAway[p])
        && (forall p :: turnedAway[p] <= multiset(s.ledger.overBudget)[p])
    ensures selector.None? ==> turnedAway == multiset{}
  {
    var st := Initial(limits, tree, selector.Some?);
    InitialHolds(limits, tree, selector.Some?);
    turnedAway := RunKeeps(limits, world, selector, Available(tree.entries), st, multiset{});
    var r := Run(limits, world, selector, Available(tree.entries), st);
    if r.Some? {
      var s := r.value;
      assert s.retained[..s.next] == s.retained;
      forall p
        ensures AcquiredPaths(s.ledger)[p] <= 1 && Tally(s.ledger, p) == Bag(s.retained)[p] + turnedAway[p]
        ensures turnedAway[p] <= multiset(s.ledger.overBudget)[p]
      {
        assert Unique(s, [], p) && Balanced(s, [], turnedAway, p);
      }
    }
  }

  // ----- the client's limit and the internal error never show -----

  predicate Known(st: State, sha: string) {
    sha in st.cached || sha in st.terminal
  }

  lemma {:induction false} BatchIsAnswerable(limits: Limits, st: State, batch: seq<Candidate>, pending: seq<string>,
      reserved: nat)
    requires st.next <= |st.retained|
    requires forall c :: c in batch ==> Known(st, c.entry.sha) || c.entry.sha in pending
    ensures var f := FormBatch(limits, st, batch, pending, reserved);
      forall c :: c in f.batch ==> Known(f.st, c.entry.sha) || c.entry.sha in f.pending
    decreases |st.retained| - st.next
  {
    if |batch| < BATCH_SIZE && st.next < |st.retained| {
      var c := st.retained[st.next];
      match Decide(limits, st, batch, pending, reserved) {
        case Close =>
        case TurnDown(fate) =>
          BatchIsAnswerable(limits, TurnAway(st, fate), batch, pending, reserved);
        case Accept =>
          BatchIsAnswerable(limits, st.(next := st.next + 1), batch + [c],
            PendingWith(st, pending, c.entry.sha), reserved + Reservation(limits, c.entry));
      }
    }
  }

  lemma KnownGrows(limits: Limits, st: State, batch: seq<Candidate>, replies: map<string, Reply>)
    ensures var r := RetainBatch(limits, st, batch, replies);
      r.Some? ==> forall sha :: Known(st, sha) ==> Known(r.value, sha)
    decreases |batch|
  {
  }

  /** Where the invariant holds, each of the round's requests is a real request within the client's
      limit, and whichever member of the batch comes next, its blob is cached, its outcome is
      memoised, or its reply is at hand: "Missing GitHub blob response" is never raised. */
  lemma RequestsAreRealAndRepliesPresent(limits: Limits, world: World, st: State, k: nat, turnedAway: multiset<string>)
    requires Inv(limits, st, [], [], turnedAway) && st.next < |st.retained|
    ensures var f := FormBatch(limits, st, [], [], 0);
      var (replies, count) := FetchAll(limits, world, f.st.requests, f.pending);
      && count == st.requests + |f.pending| <= limits.maxRequests
      && (forall sha :: sha in replies ==> exists n :: st.requests <= n < count && replies[sha] == world(sha, n))
      && (k < |f.batch| ==>
           var r := RetainBatch(limits, f.st.(requests := count), f.batch[..k], replies);
           r.Some? ==> Known(r.value, f.batch[k].entry.sha) || f.batch[k].entry.sha in replies)
  {
    var f := FormBatch(limits, st, [], [], 0);
    FormBatchPlaces(limits, st, [], [], 0);
    FormBatchKeeps(limits, st, [], [], 0, turnedAway);
    FetchAllCounts(limits, world, f.st.requests, f.pending);
    BatchIsAnswerable(limits, st, [], [], 0);
    var (replies, count) := FetchAll(limits, world, f.st.requests, f.pending);
    if k < |f.batch| {
      KnownGrows(limits, f.st.(requests := count), f.batch[..k], replies);
      assert f.batch[k] in f.batch;
    }
  }

  /** The state after so many rounds, if the run gets that far. */
  function After(limits: Limits, world: World, selector: Option<Selector>, available: seq<Entry>, st: State,
      rounds: nat): (r: Option<State>)
    requires st.next <= |st.retained| <= limits.maxFiles
    decreases rounds
  {
    if rounds == 0 then Some(st)
    else if st.next == |st.retained| then None
    else
      RoundAdvances(limits, world, selector, available, st);
      var st' := Round(limits, world, selector, available, st);
      if st'.None? then None else After(limits, world, selector, available, st'.value, rounds - 1)
  }

  lemma {:induction false} AfterKeeps(limits: Limits, world: World, selector: Option<Selector>, available: seq<Entry>,
      st: State, rounds: nat, turnedAway: multiset<string>)
    returns (turnedAway': multiset<string>)
    requires Inv(limits, st, [], [], turnedAway)
    ensures var r := After(limits, world, selector, available, st, rounds);
      r.Some? ==> Inv(limits, r.value, [], [], turnedAway')
    decreases rounds
  {
    hide Round;
    turnedAway' := turnedAway;
    if rounds > 0 && st.next < |st.retained| {
      RoundAdvances(limits, world, selector, available, st);
      turnedAway' := RoundKeeps(limits, world, selector, available, st, turnedAway);
      var st' := Round(limits, world, selector, available, st);
      if st'.Some? { turnedAway' := AfterKeeps(limits, world, selector, available, st'.value, rounds - 1, turnedAway'); }
    }
  }

  /** So it is in every round that an acquisition reaches. */
  lemma {:induction false} EveryRoundIsAnswerable(limits: Limits, world: World, selector: Option<Selector>, tree: Tree,
      rounds: nat, k: nat)
    requires DistinctPaths(tree.entries) && METADATA_REQUESTS <= limits.maxRequests
    ensures var at := After(limits, world, selector, Available(tree.entries), Initial(limits, tree, selector.Some?),
      rounds);
      at.Some? && at.value.next < |at.value.retained| ==>
        var f := FormBatch(limits, at.value, [], [], 0);
        var (replies, count) := FetchAll(limits, world, f.st.requests, f.pending);
        && count == at.value.requests + |f.pending| <= limits.maxRequests
        && (forall sha :: sha in replies ==> exists n :: at.value.requests <= n < count && replies[sha] == world(sha, n))
        && (k < |f.batch| ==>
             var r := RetainBatch(limits, f.st.(requests := count), f.batch[..k], replies);
             r.Some? ==> Known(r.value, f.batch[k].entry.sha) || f.batch[k].entry.sha in replies)
  {
    hide After, FormBatch, FetchAll, RetainBatch, Inv;
    InitialHolds(limits, tree, selector.Some?);
    var turnedAway := AfterKeeps(limits, world, selector, Available(tree.entries),
      Initial(limits, tree, selector.Some?), rounds, multiset{});
    var at := After(limits, world, selector, Available(tree.entries), Initial(limits, tree, selector.Some?), rounds);
    if at.Some? && at.value.next < |at.value.retained| {
      RequestsAreRealAndRepliesPresent(limits, world, at.value, k, turnedAway);
    }
  }

  // ----- complete coverage is complete -----

  predicate Reported(ledger: Ledger, p: string) {
    || p in ledger.oversized || p in ledger.overBudget || p in ledger.binary
    || p in ledger.lfs || p in ledger.failed
  }

  predicate Fetched(ledger: Ledger, p: string) {
    exists k :: 0 <= k < |ledger.files| && ledger.files[k].path == p
  }

  predicate Settled(ledger: Ledger, p: string) {
    Fetched(ledger, p) || Reported(ledger, p)
  }

  /** The path is still on its way, or has been dealt with. */
  predicate Tracked(st: State, waiting: seq<Candidate>, aside: seq<Candidate>, p: string)
    requires st.next <= |st.retained|
  {
    p in Paths(st.retained[st.next..]) || p in Paths(waiting) || p in Paths(aside) || Settled(st.ledger, p)
  }

  lemma RecordSettles(ledger: Ledger, entry: Entry, fate: Fate, p: string)
    requires entry.path != MANIFEST_PATH || p != MANIFEST_PATH
    requires p == entry.path || Settled(ledger, p)
    ensures Settled(Record(ledger, entry, fate), p)
  {
    var l := Record(ledger, entry, fate);
    if fate.Acquired? && entry.path != MANIFEST_PATH {
      assert l.files[|ledger.files|].path == entry.path;
      if Fetched(ledger, p) {
        var k :| 0 <= k < |ledger.files| && ledger.files[k].path == p;
        assert l.files[k].path == p;
      }
    }
  }

  lemma NextIsFirst(st: State, p: string)
    requires st.next < |st.retained| && p in Paths(st.retained[st.next..])
    ensures p == st.retained[st.next].entry.path || p in Paths(st.retained[st.next + 1..])
  {
    PathsAppend([st.retained[st.next]], st.retained[st.next + 1..]);
    assert st.retained[st.next..] == [st.retained[st.next]] + st.retained[st.next + 1..];
    assert Paths([st.retained[st.next]]) == [st.retained[st.next].entry.path];
  }

  lemma {:induction false} FormBatchTracks(limits: Limits, st: State, batch: seq<Candidate>, pending: seq<string>,
      reserved: nat, p: string)
    requires st.next <= |st.retained| && p != MANIFEST_PATH && Tracked(st, batch, [], p)
    ensures var f := FormBatch(limits, st, batch, pending, reserved);
      f.st.next <= |f.st.retained| && Tracked(f.st, f.batch, [], p)
    decreases |st.retained| - st.next
  {
    if |batch| < BATCH_SIZE && st.next < |st.retained| {
      var c := st.retained[st.next];
      if p in Paths(st.retained[st.next..]) { NextIsFirst(st, p); }
      match Decide(limits, st, batch, pending, reserved) {
        case Close =>
        case TurnDown(fate) =>
          if p == c.entry.path || Settled(st.ledger, p) { RecordSettles(st.ledger, c.entry, fate, p); }
          FormBatchTracks(limits, TurnAway(st, fate), batch, pending, reserved, p);
        case Accept =>
          PathsAppend(batch, [c]);
          assert Paths([c]) == [c.entry.path];
          FormBatchTracks(limits, st.(next := st.next + 1), batch + [c],
            PendingWith(st, pending, c.entry.sha), reserved + Reservation(limits, c.entry), p);
      }
    }
  }

  lemma {:induction false} RetainBatchTracks(limits: Limits, st: State, batch: seq<Candidate>,
      replies: map<string, Reply>, p: string)
    requires st.next <= |st.retained| && p != MANIFEST_PATH && Tracked(st, batch, [], p)
    ensures var r := RetainBatch(limits, st, batch, replies);
      r.Some? ==> r.value.next == st.next && r.value.retained == st.retained && Tracked(r.value, [], [], p)
    decreases |batch|
  {
    if batch != [] {
      var c := batch[0];
      var sha := c.entry.sha;
      PathsAppend([c], batch[1..]);
      assert batch == [c] + batch[1..];
      assert Paths([c]) == [c.entry.path];
      var ruling := Rule(limits, st.ledger.totalBytes, c.entry, Lookup(st.terminal, sha), Lookup(st.cached, sha),
        Lookup(replies, sha));
      if ruling.Meets? {
        if p == c.entry.path || Settled(st.ledger, p) { RecordSettles(st.ledger, c.entry, ruling.fate, p); }
        RetainBatchTracks(limits, Remember(st, c.entry, ruling.fate, ruling.note), batch[1..], replies, p);
      }
    }
  }

  lemma RemovedPath(s: seq<Candidate>, from: nat, i: nat, p: string)
    requires from <= i < |s| && p in Paths(s[from..])
    ensures p == s[i].entry.path || p in Paths(RemoveAt(s, i)[from..])
  {
    var tail := s[from..];
    assert tail == tail[..i - from] + [s[i]] + tail[i - from + 1..];
    assert RemoveAt(s, i)[from..] == tail[..i - from] + tail[i - from + 1..];
    PathsAppend(tail[..i - from] + [s[i]], tail[i - from + 1..]);
    PathsAppend(tail[..i - from], [s[i]]);
    PathsAppend(tail[..i - from], tail[i - from + 1..]);
    assert Paths([s[i]]) == [s[i].entry.path];
  }

  lemma {:induction false} SelectTracks(limits: Limits, available: seq<Entry>, st: State, selected: seq<string>,
      aside: seq<Candidate>, p: string)
    requires st.next <= |st.retained| && Tracked(st, [], aside, p)
    ensures var s := Select(limits, available, st, selected, aside);
      s.next <= |s.retained| && Tracked(s, [], [], p)
    decreases |selected|
  {
    if selected == [] {
      var s := Select(limits, available, st, selected, aside);
      assert s.retained[s.next..] == aside + st.retained[st.next..];
      PathsAppend(aside, st.retained[st.next..]);
    } else {
      var path := selected[0];
      var rest := selected[1..];
      if path in st.queued {
        var i := FindPending(st.retained, st.next, path);
        if i.Some? {
          if p in Paths(st.retained[st.next..]) { RemovedPath(st.retained, st.next, i.value, p); }
          PathsAppend(aside, [st.retained[i.value]]);
          assert Paths([st.retained[i.value]]) == [st.retained[i.value].entry.path];
          SelectTracks(limits, available, st.(retained := RemoveAt(st.retained, i.value)), rest,
            aside + [st.retained[i.value]], p);
        } else {
          SelectTracks(limits, available, st, rest, aside, p);
        }
      } else {
        var entry := FindEntry(available, path);
        if entry.None? {
          SelectTracks(limits, available, st, rest, aside, p);
        } else {
          var added := Candidate(entry.value, Config);
          PathsAppend(aside, [added]);
          if |st.retained| + |aside| >= limits.maxFiles {
            var i := FindReplaceable(st.retained, st.next, |st.retained|);
            if i.None? {
              SelectTracks(limits, available, st.(ledger := OverBudgetPath(st.ledger, path)), rest, aside, p);
            } else {
              var replaced := st.retained[i.value].entry.path;
              if p in Paths(st.retained[st.next..]) { RemovedPath(st.retained, st.next, i.value, p); }
              SelectTracks(limits, available,
                st.(retained := RemoveAt(st.retained, i.value), ledger := OverBudgetPath(st.ledger, replaced),
                    queued := st.queued - {replaced} + {path}),
                rest, aside + [added], p);
            }
          } else {
            SelectTracks(limits, available, st.(queued := st.queued + {path}), rest, aside + [added], p);
          }
        }
      }
    }
  }

  lemma RoundTracks(limits: Limits, world: World, selector: Option<Selector>, available: seq<Entry>, st: State,
      p: string)
    requires st.next < |st.retained| && p != MANIFEST_PATH && Tracked(st, [], [], p)
    ensures var r := Round(limits, world, selector, available, st);
      r.Some? ==> r.value.next <= |r.value.retained| && Tracked(r.value, [], [], p)
  {
    var formed := FormBatch(limits, st, [], [], 0);
    var (replies, requests) := FetchAll(limits, world, formed.st.requests, formed.pending);
    FormBatchPlaces(limits, st, [], [], 0);
    FormBatchTracks(limits, st, [], [], 0, p);
    var fetched := formed.st.(requests := requests);
    RetainBatchTracks(limits, fetched, formed.batch, replies, p);
    var retained := RetainBatch(limits, fetched, formed.batch, replies);
    if retained.Some? && selector.Some? {
      var s := retained.value;
      SelectTracks(limits, available, s, Take(selector.value(s.ledger.files, EntryPaths(available), s.next), SELECTION_SIZE), [], p);
    }
  }

  lemma {:induction false} RunTracks(limits: Limits, world: World, selector: Option<Selector>, available: seq<Entry>,
      st: State, p: string)
    requires st.next <= |st.retained| <= limits.maxFiles && p != MANIFEST_PATH && Tracked(st, [], [], p)
    ensures var r := Run(limits, world, selector, available, st);
      r.Some? ==> |r.value.retained| <= limits.maxFiles && Settled(r.value.ledger, p)
    decreases limits.maxFiles - st.next
  {
    if st.next < |st.retained| {
      RoundAdvances(limits, world, selector, available, st);
      RoundTracks(limits, world, selector, available, st, p);
      var st' := Round(limits, world, selector, available, st);
      if st'.Some? { RunTracks(limits, world, selector, available, st'.value, p); }
    }
  }

  // ----- the verdict -----

  predicate NoneAffects(paths: seq<string>) {
    forall p :: p in paths ==> !AffectsUsageEvidence(p)
  }

  /** The negation of `sourceCoveragePartial`. */
  predicate SaysComplete(tree: Tree, hasSelector: bool, final: State)
  {
    && !tree.truncated
    && PutAside(tree.entries, hasSelector, Unsafe) == []
    && |final.retained| >= |Ordered(tree, hasSelector)|
    && PutAside(tree.entries, hasSelector, Ignored) == []
    && PutAside(tree.entries, hasSelector, Unsupported) == []
    && PutAside(tree.entries, hasSelector, Submodule) == []
    && NoneAffects(PutAside(tree.entries, hasSelector, Symlink))
    && NoneAffects(final.ledger.oversized)
    && NoneAffects(final.ledger.overBudget)
    && NoneAffects(final.ledger.binary)
    && NoneAffects(final.ledger.lfs)
    && NoneAffects(final.ledger.failed)
  }

  lemma PutAsideIsListed(entries: seq<Entry>, hasSelector: bool, k: nat)
    requires k < |entries|
    ensures entries[k].path in PutAside(entries, hasSelector, Classify(entries[k], hasSelector))
  {
    hide Classify;
    if k > 0 { PutAsideIsListed(entries[1..], hasSelector, k - 1); }
  }

  lemma ChosenIsCandidate(entries: seq<Entry>, hasSelector: bool, k: nat)
    requires k < |entries| && Classify(entries[k], hasSelector).Chosen?
    ensures Classify(entries[k], hasSelector).candidate in Candidates(entries, hasSelector)
  {
    if k > 0 {
      ChosenIsCandidate(entries[1..], hasSelector, k - 1);
    }
  }

  /** When acquisition reports complete coverage, every non-symlink blob of the returned tree with
      a supported source path is among the acquired files, whatever the selector did meanwhile. */
  lemma CompleteMeansComplete(limits: Limits, tree: Tree, world: World, selector: Option<Selector>, k: nat)
    requires k < |tree.entries| && MustBeFetched(tree.entries[k])
    ensures var r := Run(limits, world, selector, Available(tree.entries), Initial(limits, tree, selector.Some?));
      r.Some? && SaysComplete(tree, selector.Some?, r.value) ==> Fetched(r.value.ledger, tree.entries[k].path)
  {
    var e := tree.entries[k];
    var hasSelector := selector.Some?;
    var st := Initial(limits, tree, hasSelector);
    var ordered := Ordered(tree, hasSelector);
    var r := Run(limits, world, selector, Available(tree.entries), st);
    if r.Some? && SaysComplete(tree, hasSelector, r.value) {
      SourcePathsCount(e.path);
      PutAsideIsListed(tree.entries, hasSelector, k);
      assert Classify(e, hasSelector).Chosen?;
      ChosenIsCandidate(tree.entries, hasSelector, k);
      SortMembers(CandidateBefore, Candidates(tree.entries, hasSelector));
      var c := Classify(e, hasSelector).candidate;
      if |ordered| > limits.maxFiles {
        CapHolds(limits, world, selector, Available(tree.entries), st);
        assert false;
      }
      assert st.retained[st.next..] == ordered;
      var i :| 0 <= i < |ordered| && ordered[i] == c;
      assert Paths(ordered)[i] == e.path;
      RunTracks(limits, world, selector, Available(tree.entries), st, e.path);
    }
  }

  predicate MustBeFetched(entry: Entry) {
    entry.entryType == BlobEntry && entry.mode != "120000" && IsSourcePath(entry.path)
  }

  lemma {:induction false} CapHolds(limits: Limits, world: World, selector: Option<Selector>, available: seq<Entry>,
      st: State)
    requires st.next <= |st.retained| <= limits.maxFiles
    ensures var r := Run(limits, world, selector, available, st);
      r.Some? ==> |r.value.retained| <= limits.maxFiles
    decreases limits.maxFiles - st.next
  {
    if st.next < |st.retained| {
      RoundAdvances(limits, world, selector, available, st);
      var st' := Round(limits, world, selector, available, st);
      if st'.Some? { CapHolds(limits, world, selector, available, st'.value); }
    }
  }
}
