/** The vocabulary of `github/adapter.ts` and the step-by-step meaning of its acquisition loop:
    batches of at most four candidates, byte reservations, one request per blob SHA, memoised
    outcomes, and a selector that may insert or evict pending candidates between batches. */
module AcquisitionModel {
  import opened Text
  import opened RepositoryPaths

  /** Validated positive integers; `maxRequests` also covers the three metadata requests. */
  datatype Limits = Limits(maxFileBytes: nat, maxTotalBytes: nat, maxFiles: nat, maxRequests: nat)

  datatype EntryType = BlobEntry | TreeEntry | CommitEntry
  datatype Entry = Entry(path: string, mode: string, entryType: EntryType, sha: string, size: Option<nat>)
  datatype Tree = Tree(entries: seq<Entry>, truncated: bool)

  datatype Kind = Manifest | Lockfile | Config | Source
  datatype Candidate = Candidate(entry: Entry, kind: Kind)

  /** What one blob request can bring back. Decoding fixes the byte length to the declared size. */
  datatype Reply =
    | ConfigurationError
    | RequestError(code: string, retryable: bool)
    | UnexpectedError
    | Malformed
    | Blob(size: nat, body: Body)
  datatype Body = BadEncoding | NonText | Content(text: string)

  /** The provider: the reply to the n-th request of the run, for a blob SHA. */
  type World = (string, nat) -> Reply

  /** The caller's selector. The last argument is the number of candidates consumed, which rises from
      round to round: asked again with the same files, a selector may answer differently. */
  type Selector = (seq<File>, seq<string>, nat) -> seq<string>

  datatype File = File(path: string, blobSha: string, byteLength: nat, content: string)
  datatype Failure = Failure(path: string, code: string, retryable: bool)
  datatype CachedBlob = CachedBlob(byteLength: nat, text: string)
  datatype Terminal = TooLarge | NotText | Pointer | Broken(code: string)

  /** Everything the run reports about the candidates it has dealt with. */
  datatype Ledger = Ledger(
    manifest: Option<File>, files: seq<File>, totalBytes: nat,
    oversized: seq<string>, overBudget: seq<string>, binary: seq<string>,
    lfs: seq<string>, failed: seq<string>, failures: seq<Failure>)

  datatype Fate =
    | Acquired(blob: CachedBlob) | Oversized | OverBudget | Binary | LfsPointer
    | Failed(code: string, retryable: bool)
  datatype Ruling = Threw | Meets(fate: Fate, note: Option<Terminal>)

  datatype State = State(
    retained: seq<Candidate>, next: nat, queued: set<string>, ledger: Ledger, rateLimited: bool,
    cached: map<string, CachedBlob>, terminal: map<string, Terminal>, requests: nat)

  const LFS_PREFIX := "version https://git-lfs.github.com/spec/v1\n"
  const MANIFEST_PATH := "package.json"
  const METADATA_REQUESTS: nat := 3
  const BATCH_SIZE: nat := 4
  const SELECTION_SIZE: nat := 128

  predicate IsRateLimit(code: string) {
    EndsWith(code, "_rate_limited")
  }

  function Lookup<V>(m: map<string, V>, key: string): Option<V> {
    if key in m then Some(m[key]) else None
  }

  // ----- which tree entries become candidates -----

  datatype Triage = Unsafe | Submodule | Unsupported | Ignored | Symlink | Skip | Chosen(candidate: Candidate)

  function Classify(entry: Entry, hasSelector: bool): Triage
  {
    var path := entry.path;
    if !IsCanonicalPath(path) then Unsafe
    else if entry.entryType == CommitEntry then Submodule
    else if IsUnsupportedSourcePath(path) then (if IsIgnoredPath(path) then Skip else Unsupported)
    else if !IsInitiallySupportedPath(path) then Skip
    else if IsIgnoredPath(path) then Ignored
    else if entry.entryType != BlobEntry then Skip
    else if entry.mode == "120000" then Symlink
    else Chosen(Candidate(entry, KindOf(path, hasSelector)))
  }

  function KindOf(path: string, hasSelector: bool): Kind
  {
    if path == MANIFEST_PATH || EndsWith(path, "/package.json") || path == "pnpm-workspace.yaml" then Manifest
    else if IsLockfilePath(path) then Lockfile
    else if IsSourcePath(path) && !(hasSelector && IsScriptConfigPath(path)) then Source
    else Config
  }

  function Candidates(entries: seq<Entry>, hasSelector: bool): seq<Candidate>
  {
    if entries == [] then []
    else
      var rest := Candidates(entries[1..], hasSelector);
      var triage := Classify(entries[0], hasSelector);
      if triage.Chosen? then [triage.candidate] + rest else rest
  }

  /** The paths put aside for this reason, in tree order. */
  function PutAside(entries: seq<Entry>, hasSelector: bool, reason: Triage): seq<string>
  {
    if entries == [] then []
    else
      var rest := PutAside(entries[1..], hasSelector, reason);
      if Classify(entries[0], hasSelector) == reason then [entries[0].path] + rest else rest
  }

  function Rank(kind: Kind): nat {
    match kind case Manifest => 0 case Lockfile => 1 case Config => 2 case Source => 3
  }

  predicate CandidateBefore(left: Candidate, right: Candidate) {
    if left.entry.path == MANIFEST_PATH then true
    else if right.entry.path == MANIFEST_PATH then false
    else if Rank(left.kind) != Rank(right.kind) then Rank(left.kind) < Rank(right.kind)
    else !Less(right.entry.path, left.entry.path)
  }

  function Ordered(tree: Tree, hasSelector: bool): seq<Candidate> {
    Sort(CandidateBefore, Candidates(tree.entries, hasSelector))
  }

  function Available(entries: seq<Entry>): seq<Entry>
  {
    if entries == [] then []
    else
      var rest := Available(entries[1..]);
      var e := entries[0];
      if e.entryType == BlobEntry && e.mode != "120000" && IsCanonicalPath(e.path)
         && !IsIgnoredPath(e.path) && IsConfigurationCandidatePath(e.path)
      then [e] + rest else rest
  }

  function Paths(candidates: seq<Candidate>): (r: seq<string>) {
    seq(|candidates|, i requires 0 <= i < |candidates| => candidates[i].entry.path)
  }

  function EntryPaths(entries: seq<Entry>): seq<string> {
    seq(|entries|, i requires 0 <= i < |entries| => entries[i].path)
  }

  function Take<T>(s: seq<T>, n: nat): seq<T> {
    if n <= |s| then s[..n] else s
  }

  const EMPTY_LEDGER := Ledger(None, [], 0, [], [], [], [], [], [])

  function Initial(limits: Limits, tree: Tree, hasSelector: bool): State
  {
    var retained := Take(Ordered(tree, hasSelector), limits.maxFiles);
    State(retained, 0, (set p | p in Paths(retained)), EMPTY_LEDGER, false, map[], map[], METADATA_REQUESTS)
  }

  // ----- the fate of one candidate -----

  function Fail(code: string, retryable: bool): Ruling {
    Meets(Failed(code, retryable), if !retryable && !IsRateLimit(code) then Some(Broken(code)) else None)
  }

  function Keep(limits: Limits, total: nat, blob: CachedBlob): Ruling {
    if total + blob.byteLength > limits.maxTotalBytes then Meets(OverBudget, None)
    else if StartsWith(blob.text, LFS_PREFIX) then Meets(LfsPointer, Some(Pointer))
    else Meets(Acquired(blob), None)
  }

  function RuleReply(limits: Limits, total: nat, reply: Reply): Ruling
  {
    match reply
    case ConfigurationError => Threw
    case RequestError(code, retryable) => Fail(code, retryable)
    case UnexpectedError => Fail("github_blob_request_failed", true)
    case Malformed => Fail("github_invalid_blob_response", false)
    case Blob(size, body) =>
      if size > limits.maxFileBytes then Meets(Oversized, Some(TooLarge))
      else match body
        case BadEncoding => Fail("github_invalid_blob_response", false)
        case NonText => Meets(Binary, Some(NotText))
        case Content(text) => Keep(limits, total, CachedBlob(size, text))
  }

  function RuleTerminal(terminal: Terminal): Ruling
  {
    match terminal
    case TooLarge => Meets(Oversized, None)
    case NotText => Meets(Binary, None)
    case Pointer => Meets(LfsPointer, None)
    case Broken(code) => Fail(code, false)
  }

  /** `retainEntry`, before its effects. A missing reply is the source's internal error. */
  function Rule(limits: Limits, total: nat, entry: Entry, terminal: Option<Terminal>, cached: Option<CachedBlob>,
      reply: Option<Reply>): Ruling
  {
    if entry.size.Some? && entry.size.value > limits.maxFileBytes then Meets(Oversized, None)
    else if entry.size.Some? && total + entry.size.value > limits.maxTotalBytes then Meets(OverBudget, None)
    else if terminal.Some? then RuleTerminal(terminal.value)
    else if cached.Some? then Keep(limits, total, cached.value)
    else if reply.None? then Fail("github_blob_request_failed", true)
    else RuleReply(limits, total, reply.value)
  }

  function Record(ledger: Ledger, entry: Entry, fate: Fate): Ledger
  {
    var path := entry.path;
    match fate
    case Acquired(blob) =>
      var file := File(path, entry.sha, blob.byteLength, blob.text);
      if path == MANIFEST_PATH
      then ledger.(manifest := Some(file), totalBytes := ledger.totalBytes + blob.byteLength)
      else ledger.(files := ledger.files + [file], totalBytes := ledger.totalBytes + blob.byteLength)
    case Oversized => ledger.(oversized := ledger.oversized + [path])
    case OverBudget => ledger.(overBudget := ledger.overBudget + [path])
    case Binary => ledger.(binary := ledger.binary + [path])
    case LfsPointer => ledger.(lfs := ledger.lfs + [path])
    case Failed(code, retryable) =>
      ledger.(failed := ledger.failed + [path], failures := ledger.failures + [Failure(path, code, retryable)])
  }

  function Remember(st: State, entry: Entry, fate: Fate, note: Option<Terminal>): State
  {
    st.(ledger := Record(st.ledger, entry, fate),
        rateLimited := st.rateLimited || (fate.Failed? && IsRateLimit(fate.code)),
        cached := if fate.Acquired? then st.cached[entry.sha := fate.blob] else st.cached,
        terminal := if note.Some? then st.terminal[entry.sha := note.value] else st.terminal)
  }

  /** `None` when a configuration error escapes and the whole acquisition throws. */
  function Retain(limits: Limits, st: State, c: Candidate, reply: Option<Reply>): Option<State>
  {
    var sha := c.entry.sha;
    var ruling := Rule(limits, st.ledger.totalBytes, c.entry, Lookup(st.terminal, sha), Lookup(st.cached, sha), reply);
    if ruling.Threw? then None else Some(Remember(st, c.entry, ruling.fate, ruling.note))
  }

  // ----- one round: form a batch, fetch, retain, let the selector reshuffle -----

  datatype Formed = Formed(st: State, batch: seq<Candidate>, pending: seq<string>)

  function Reservation(limits: Limits, entry: Entry): nat {
    if entry.size.Some? then entry.size.value else limits.maxFileBytes
  }

  predicate NeedsFetch(st: State, pending: seq<string>, sha: string) {
    sha !in st.cached && sha !in st.terminal && sha !in pending
  }

  /** Consumes the next candidate without putting it into the batch. */
  function TurnAway(st: State, fate: Fate): State
    requires st.next < |st.retained|
  {
    st.(next := st.next + 1, ledger := Record(st.ledger, st.retained[st.next].entry, fate))
  }

  datatype Decision = Close | TurnDown(fate: Fate) | Accept

  /** What the batch loop does with the next candidate. */
  function Decide(limits: Limits, st: State, batch: seq<Candidate>, pending: seq<string>, reserved: nat): Decision
    requires st.next < |st.retained|
  {
    var entry := st.retained[st.next].entry;
    if st.rateLimited || (NeedsFetch(st, pending, entry.sha) && st.requests + |pending| >= limits.maxRequests) then TurnDown(OverBudget)
    else if Reservation(limits, entry) > limits.maxFileBytes then TurnDown(Oversized)
    else if st.ledger.totalBytes + reserved + Reservation(limits, entry) > limits.maxTotalBytes then
      if |batch| > 0 then Close else TurnDown(OverBudget)
    else Accept
  }

  function PendingWith(st: State, pending: seq<string>, sha: string): seq<string> {
    if NeedsFetch(st, pending, sha) then pending + [sha] else pending
  }

  function FormBatch(limits: Limits, st: State, batch: seq<Candidate>, pending: seq<string>, reserved: nat): Formed
    requires st.next <= |st.retained|
    decreases |st.retained| - st.next
  {
    if |batch| >= BATCH_SIZE || st.next == |st.retained| then Formed(st, batch, pending)
    else
      var c := st.retained[st.next];
      match Decide(limits, st, batch, pending, reserved)
      case Close => Formed(st, batch, pending)
      case TurnDown(fate) => FormBatch(limits, TurnAway(st, fate), batch, pending, reserved)
      case Accept =>
        FormBatch(limits, st.(next := st.next + 1), batch + [c], PendingWith(st, pending, c.entry.sha),
          reserved + Reservation(limits, c.entry))
  }

  /** `GitHubRequestClient.getJson`: the limit is checked before the request is counted. */
  function GetJson(limits: Limits, world: World, requests: nat, sha: string): (Reply, nat) {
    if requests >= limits.maxRequests then (RequestError("github_request_limit_reached", false), requests)
    else (world(sha, requests), requests + 1)
  }

  function FetchAll(limits: Limits, world: World, requests: nat, pending: seq<string>): (map<string, Reply>, nat)
  {
    if pending == [] then (map[], requests)
    else
      var last := |pending| - 1;
      var (replies, count) := FetchAll(limits, world, requests, pending[..last]);
      var (reply, count') := GetJson(limits, world, count, pending[last]);
      (replies[pending[last] := reply], count')
  }

  function RetainBatch(limits: Limits, st: State, batch: seq<Candidate>, replies: map<string, Reply>): Option<State>
    decreases |batch|
  {
    if batch == [] then Some(st)
    else
      var st' := Retain(limits, st, batch[0], Lookup(replies, batch[0].entry.sha));
      if st'.None? then None else RetainBatch(limits, st'.value, batch[1..], replies)
  }

  /** The first pending candidate with this path. */
  function FindPending(retained: seq<Candidate>, from: nat, path: string): (i: Option<nat>)
    ensures i.Some? ==> from <= i.value < |retained| && retained[i.value].entry.path == path
    decreases |retained| - from
  {
    if from >= |retained| then None
    else if retained[from].entry.path == path then Some(from)
    else FindPending(retained, from + 1, path)
  }

  /** The last pending source candidate among the first `limit`. */
  function FindReplaceable(retained: seq<Candidate>, from: nat, limit: nat): (i: Option<nat>)
    requires limit <= |retained|
    ensures i.Some? ==> from <= i.value < limit && retained[i.value].kind == Source
  {
    if limit <= from then None
    else if retained[limit - 1].kind == Source then Some(limit - 1)
    else FindReplaceable(retained, from, limit - 1)
  }

  function FindEntry(available: seq<Entry>, path: string): (e: Option<Entry>)
    ensures e.Some? ==> e.value in available && e.value.path == path
  {
    if available == [] then None
    else if available[0].path == path then Some(available[0])
    else FindEntry(available[1..], path)
  }

  function OverBudgetPath(ledger: Ledger, path: string): Ledger {
    ledger.(overBudget := ledger.overBudget + [path])
  }

  function Select(limits: Limits, available: seq<Entry>, st: State, selected: seq<string>,
      additions: seq<Candidate>): State
    requires st.next <= |st.retained|
    decreases |selected|
  {
    if selected == [] then
      st.(retained := st.retained[..st.next] + additions + st.retained[st.next..])
    else
      var path := selected[0];
      if path in st.queued then
        var i := FindPending(st.retained, st.next, path);
        if i.Some?
        then Select(limits, available, st.(retained := RemoveAt(st.retained, i.value)), selected[1..],
          additions + [st.retained[i.value]])
        else Select(limits, available, st, selected[1..], additions)
      else
        var entry := FindEntry(available, path);
        if entry.None? then Select(limits, available, st, selected[1..], additions)
        else if |st.retained| + |additions| >= limits.maxFiles then
          var i := FindReplaceable(st.retained, st.next, |st.retained|);
          if i.None?
          then Select(limits, available, st.(ledger := OverBudgetPath(st.ledger, path)), selected[1..], additions)
          else
            var replaced := st.retained[i.value].entry.path;
            Select(limits, available,
              st.(retained := RemoveAt(st.retained, i.value), ledger := OverBudgetPath(st.ledger, replaced),
                  queued := st.queued - {replaced} + {path}),
              selected[1..], additions + [Candidate(entry.value, Config)])
        else
          Select(limits, available, st.(queued := st.queued + {path}), selected[1..],
            additions + [Candidate(entry.value, Config)])
  }

  function Round(limits: Limits, world: World, selector: Option<Selector>, available: seq<Entry>,
      st: State): Option<State>
    requires st.next < |st.retained|
  {
    var formed := FormBatch(limits, st, [], [], 0);
    var (replies, requests) := FetchAll(limits, world, formed.st.requests, formed.pending);
    FormBatchPlaces(limits, st, [], [], 0);
    RetainBatchPlaces(limits, formed.st.(requests := requests), formed.batch, replies);
    var retained := RetainBatch(limits, formed.st.(requests := requests), formed.batch, replies);
    if retained.None? || selector.None? then retained
    else
      var s := retained.value;
      Some(Select(limits, available, s, Take(selector.value(s.ledger.files, EntryPaths(available), s.next), SELECTION_SIZE), []))
  }

  /** The whole loop. Its termination argument is that every round consumes a candidate while the
      list never outgrows the file cap, whatever the selector answers. */
  function Run(limits: Limits, world: World, selector: Option<Selector>, available: seq<Entry>,
      st: State): Option<State>
    requires st.next <= |st.retained| <= limits.maxFiles
    decreases limits.maxFiles - st.next
  {
    if st.next == |st.retained| then Some(st)
    else
      RoundAdvances(limits, world, selector, available, st);
      var st' := Round(limits, world, selector, available, st);
      if st'.None? then None else Run(limits, world, selector, available, st'.value)
  }

  // ----- progress -----

  lemma FormBatchPlaces(limits: Limits, st: State, batch: seq<Candidate>, pending: seq<string>, reserved: nat)
    requires st.next <= |st.retained|
    ensures var f := FormBatch(limits, st, batch, pending, reserved);
      && f.st.retained == st.retained && st.next <= f.st.next <= |st.retained|
      && f.st == st.(next := f.st.next, ledger := f.st.ledger)
      && (batch == [] && st.next < |st.retained| ==> st.next < f.st.next)
    decreases |st.retained| - st.next
  {
  }

  lemma RetainBatchPlaces(limits: Limits, st: State, batch: seq<Candidate>, replies: map<string, Reply>)
    ensures var r := RetainBatch(limits, st, batch, replies);
      r.Some? ==> r.value.retained == st.retained && r.value.next == st.next && r.value.queued == st.queued && r.value.requests == st.requests
    decreases |batch|
  {
  }

  lemma SelectPlaces(limits: Limits, available: seq<Entry>, st: State, selected: seq<string>, additions: seq<Candidate>)
    requires st.next <= |st.retained| && |st.retained| + |additions| <= limits.maxFiles
    ensures var s := Select(limits, available, st, selected, additions);
      s.next == st.next <= |s.retained| <= limits.maxFiles
    decreases |selected|
  {
  }

  lemma RoundAdvances(limits: Limits, world: World, selector: Option<Selector>, available: seq<Entry>, st: State)
    requires st.next < |st.retained| <= limits.maxFiles
    ensures var r := Round(limits, world, selector, available, st);
      r.Some? ==> st.next < r.value.next <= |r.value.retained| <= limits.maxFiles
  {
    var formed := FormBatch(limits, st, [], [], 0);
    var (replies, requests) := FetchAll(limits, world, formed.st.requests, formed.pending);
    FormBatchPlaces(limits, st, [], [], 0);
    RetainBatchPlaces(limits, formed.st.(requests := requests), formed.batch, replies);
    var retained := RetainBatch(limits, formed.st.(requests := requests), formed.batch, replies);
    if retained.Some? && selector.Some? {
      var s := retained.value;
      SelectPlaces(limits, available, s, Take(selector.value(s.ledger.files, EntryPaths(available), s.next), SELECTION_SIZE), []);
    }
  }
}
