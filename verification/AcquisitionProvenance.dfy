/** What an acquisition reports is true of the tree and of what the provider said: each file holds a
    blob of the tree exactly as it was delivered, and each skipped path has its reason. */
module AcquisitionProvenance {
  import opened Text
  import opened RepositoryPaths
  import opened AcquisitionModel
  import opened AcquisitionSafety
  import opened AcquisitionCoverage

  // ----- reasons, over the tree and the provider alone -----

  /** One of the first `count` requests of the run was for this blob and brought this reply. */
  predicate Told(world: World, count: nat, sha: string, reply: Reply) {
    exists n :: METADATA_REQUESTS <= n < count && world(sha, n) == reply
  }

  /** A tree entry that may be acquired at all. */
  predicate Offered(tree: Tree, e: Entry) {
    && e in tree.entries && e.entryType == BlobEntry && e.mode != "120000"
    && IsCanonicalPath(e.path) && !IsIgnoredPath(e.path)
  }

  predicate DeliveredAs(limits: Limits, world: World, count: nat, file: File) {
    && Told(world, count, file.blobSha, Blob(file.byteLength, Content(file.content)))
    && file.byteLength <= limits.maxFileBytes && !StartsWith(file.content, LFS_PREFIX)
  }

  /** The file is a blob of the tree, as the provider delivered it. */
  ghost predicate FileIsGenuine(limits: Limits, tree: Tree, world: World, count: nat, file: File) {
    && (exists e :: Offered(tree, e) && e.path == file.path && e.sha == file.blobSha)
    && DeliveredAs(limits, world, count, file)
  }

  ghost predicate TooLargeBlob(limits: Limits, world: World, count: nat, sha: string) {
    exists size: nat, body :: size > limits.maxFileBytes && Told(world, count, sha, Blob(size, body))
  }

  predicate BinaryBlob(limits: Limits, world: World, count: nat, sha: string) {
    exists size: nat :: size <= limits.maxFileBytes && Told(world, count, sha, Blob(size, NonText))
  }

  ghost predicate LfsBlob(limits: Limits, world: World, count: nat, sha: string) {
    exists size: nat, text ::
      size <= limits.maxFileBytes && StartsWith(text, LFS_PREFIX) && Told(world, count, sha, Blob(size, Content(text)))
  }

  predicate FailedBlob(limits: Limits, world: World, count: nat, sha: string, code: string, retryable: bool) {
    || Told(world, count, sha, RequestError(code, retryable))
    || (code == "github_blob_request_failed" && retryable && Told(world, count, sha, UnexpectedError))
    || (code == "github_invalid_blob_response" && !retryable
        && (Told(world, count, sha, Malformed)
            || exists size: nat :: size <= limits.maxFileBytes && Told(world, count, sha, Blob(size, BadEncoding))))
  }

  /** The blob does not fit beside what was acquired. */
  ghost predicate NoRoom(limits: Limits, world: World, count: nat, total: nat, e: Entry) {
    || total + Reservation(limits, e) > limits.maxTotalBytes
    || exists size: nat, text ::
         total + size > limits.maxTotalBytes && Told(world, count, e.sha, Blob(size, Content(text)))
  }

  /** Why the run may end a candidate this way; `evicting` if a selector could push it out. */
  ghost predicate Why(limits: Limits, world: World, count: nat, total: nat, rateLimited: bool, evicting: bool, e: Entry,
      fate: Fate)
  {
    match fate
    case Acquired(blob) => DeliveredAs(limits, world, count, File(e.path, e.sha, blob.byteLength, blob.text))
    case Oversized => (e.size.Some? && e.size.value > limits.maxFileBytes) || TooLargeBlob(limits, world, count, e.sha)
    case OverBudget => evicting || rateLimited || count >= limits.maxRequests || NoRoom(limits, world, count, total, e)
    case Binary => BinaryBlob(limits, world, count, e.sha)
    case LfsPointer => LfsBlob(limits, world, count, e.sha)
    case Failed(code, retryable) => FailedBlob(limits, world, count, e.sha, code, retryable)
  }

  /** Some entry of the tree with this path gives the reason. */
  ghost predicate Explained(limits: Limits, tree: Tree, world: World, count: nat, total: nat, rateLimited: bool,
      evicting: bool, path: string, fate: Fate)
  {
    exists e :: Offered(tree, e) && e.path == path && Why(limits, world, count, total, rateLimited, evicting, e, fate)
  }

  ghost predicate FilesAreGenuine(limits: Limits, tree: Tree, world: World, count: nat, manifest: Option<File>,
      files: seq<File>)
  {
    && (manifest.Some? ==>
          manifest.value.path == MANIFEST_PATH && FileIsGenuine(limits, tree, world, count, manifest.value))
    && (forall f :: f in files ==> f.path != MANIFEST_PATH && FileIsGenuine(limits, tree, world, count, f))
  }

  /** Every path is listed for its reason, and every failure with the code it had. */
  ghost predicate SkipsAreExplained(limits: Limits, tree: Tree, world: World, count: nat, evicting: bool,
      ledger: Ledger)
  {
    var total, limited := ledger.totalBytes, RateLimited(ledger.failures);
    && (forall p :: p in ledger.oversized ==>
          Explained(limits, tree, world, count, total, limited, evicting, p, Oversized))
    && (forall p :: p in ledger.overBudget ==>
          Explained(limits, tree, world, count, total, limited, evicting, p, OverBudget))
    && (forall p :: p in ledger.binary ==> Explained(limits, tree, world, count, total, limited, evicting, p, Binary))
    && (forall p :: p in ledger.lfs ==> Explained(limits, tree, world, count, total, limited, evicting, p, LfsPointer))
    && |ledger.failures| == |ledger.failed|
    && (forall i :: 0 <= i < |ledger.failed| ==> ledger.failures[i].path == ledger.failed[i])
    && (forall f :: f in ledger.failures ==>
          Explained(limits, tree, world, count, total, limited, evicting, f.path, Failed(f.code, f.retryable)))
  }

  predicate RateLimited(failures: seq<Failure>) {
    exists f :: f in failures && IsRateLimit(f.code)
  }

  ghost predicate Genuine(limits: Limits, tree: Tree, world: World, count: nat, evicting: bool, ledger: Ledger) {
    && FilesAreGenuine(limits, tree, world, count, ledger.manifest, ledger.files)
    && SkipsAreExplained(limits, tree, world, count, evicting, ledger)
  }

  // ----- reasons stay reasons -----

  lemma WhyStays(limits: Limits, world: World, count: nat, total: nat, rateLimited: bool, evicting: bool, count': nat,
      total': nat, rateLimited': bool, e: Entry, fate: Fate)
    requires Why(limits, world, count, total, rateLimited, evicting, e, fate)
    requires count <= count' && total <= total' && (rateLimited ==> rateLimited')
    ensures Why(limits, world, count', total', rateLimited', evicting, e, fate)
  {
    assert forall sha, reply :: Told(world, count, sha, reply) ==> Told(world, count', sha, reply);
    hide Told, Reservation, StartsWith;
  }

  lemma ExplainedStays(limits: Limits, tree: Tree, world: World, count: nat, total: nat, rateLimited: bool,
      evicting: bool, count': nat, total': nat, rateLimited': bool, path: string, fate: Fate)
    requires Explained(limits, tree, world, count, total, rateLimited, evicting, path, fate)
    requires count <= count' && total <= total' && (rateLimited ==> rateLimited')
    ensures Explained(limits, tree, world, count', total', rateLimited', evicting, path, fate)
  {
    hide Why, Offered;
    var e :| Offered(tree, e) && e.path == path && Why(limits, world, count, total, rateLimited, evicting, e, fate);
    WhyStays(limits, world, count, total, rateLimited, evicting, count', total', rateLimited', e, fate);
  }

  lemma FileStaysGenuine(limits: Limits, tree: Tree, world: World, count: nat, count': nat, f: File)
    requires FileIsGenuine(limits, tree, world, count, f) && count <= count'
    ensures FileIsGenuine(limits, tree, world, count', f)
  {
    hide Offered, StartsWith;
  }

  /** More requests, more bytes and more failures leave what was said before true. */
  lemma {:induction false} GenuineStays(limits: Limits, tree: Tree, world: World, count: nat, count': nat,
      evicting: bool, ledger: Ledger)
    requires Genuine(limits, tree, world, count, evicting, ledger) && count <= count'
    ensures Genuine(limits, tree, world, count', evicting, ledger)
  {
    hide Explained, FileIsGenuine, RateLimited;
    forall f | f in ledger.files ensures FileIsGenuine(limits, tree, world, count', f) {
      FileStaysGenuine(limits, tree, world, count, count', f);
    }
    if ledger.manifest.Some? { FileStaysGenuine(limits, tree, world, count, count', ledger.manifest.value); }
    SkipsStayExplained(limits, tree, world, count, count', evicting, ledger, ledger.totalBytes,
      RateLimited(ledger.failures));
  }

  lemma {:induction false} SkipsStayExplained(limits: Limits, tree: Tree, world: World, count: nat, count': nat,
      evicting: bool, ledger: Ledger, total': nat, limited': bool)
    requires SkipsAreExplained(limits, tree, world, count, evicting, ledger)
    requires count <= count' && ledger.totalBytes <= total' && (RateLimited(ledger.failures) ==> limited')
    ensures forall p :: p in ledger.oversized ==>
      Explained(limits, tree, world, count', total', limited', evicting, p, Oversized)
    ensures forall p :: p in ledger.overBudget ==>
      Explained(limits, tree, world, count', total', limited', evicting, p, OverBudget)
    ensures forall p :: p in ledger.binary ==>
      Explained(limits, tree, world, count', total', limited', evicting, p, Binary)
    ensures forall p :: p in ledger.lfs ==>
      Explained(limits, tree, world, count', total', limited', evicting, p, LfsPointer)
    ensures forall f :: f in ledger.failures ==>
      Explained(limits, tree, world, count', total', limited', evicting, f.path, Failed(f.code, f.retryable))
  {
    hide Explained, RateLimited;
    var total, limited := ledger.totalBytes, RateLimited(ledger.failures);
    forall p, fate | Explained(limits, tree, world, count, total, limited, evicting, p, fate)
      ensures Explained(limits, tree, world, count', total', limited', evicting, p, fate)
    {
      ExplainedStays(limits, tree, world, count, total, limited, evicting, count', total', limited', p, fate);
    }
  }

  /** One more candidate settled for a reason. */
  lemma {:induction false} RecordStaysGenuine(limits: Limits, tree: Tree, world: World, count: nat, evicting: bool,
      ledger: Ledger, e: Entry, fate: Fate)
    requires Genuine(limits, tree, world, count, evicting, ledger) && Offered(tree, e)
    requires Why(limits, world, count, ledger.totalBytes, RateLimited(ledger.failures), evicting, e, fate)
    ensures Genuine(limits, tree, world, count, evicting, Record(ledger, e, fate))
    ensures RateLimited(Record(ledger, e, fate).failures)
      == (RateLimited(ledger.failures) || (fate.Failed? && IsRateLimit(fate.code)))
  {
    hide Genuine, Why, Offered, RateLimited, IsRateLimit;
    if fate.Acquired? { RecordFileStaysGenuine(limits, tree, world, count, evicting, ledger, e, fate); }
    else { RecordSkipStaysGenuine(limits, tree, world, count, evicting, ledger, e, fate); }
    if fate.Failed? { LastFailure(ledger.failures, Record(ledger, e, fate).failures[|ledger.failures|]); }
  }

  lemma {:induction false} RecordFileStaysGenuine(limits: Limits, tree: Tree, world: World, count: nat, evicting: bool,
      ledger: Ledger, e: Entry, fate: Fate)
    requires Genuine(limits, tree, world, count, evicting, ledger) && Offered(tree, e)
    requires Why(limits, world, count, ledger.totalBytes, RateLimited(ledger.failures), evicting, e, fate)
    requires fate.Acquired?
    ensures Genuine(limits, tree, world, count, evicting, Record(ledger, e, fate))
  {
    hide Explained, FileIsGenuine, Offered, RateLimited;
    var l := Record(ledger, e, fate);
    SkipsStayExplained(limits, tree, world, count, count, evicting, ledger, l.totalBytes, RateLimited(l.failures));
    NewFileIsGenuine(limits, tree, world, count, e, fate.blob);
  }

  lemma {:induction false} RecordSkipStaysGenuine(limits: Limits, tree: Tree, world: World, count: nat, evicting: bool,
      ledger: Ledger, e: Entry, fate: Fate)
    requires Genuine(limits, tree, world, count, evicting, ledger) && Offered(tree, e)
    requires Why(limits, world, count, ledger.totalBytes, RateLimited(ledger.failures), evicting, e, fate)
    requires !fate.Acquired?
    ensures Genuine(limits, tree, world, count, evicting, Record(ledger, e, fate))
  {
    hide Explained, FileIsGenuine, Offered, Why, RateLimited;
    var l := Record(ledger, e, fate);
    MoreFailures(ledger.failures, l.failures);
    SkipsStayExplained(limits, tree, world, count, count, evicting, ledger, l.totalBytes, RateLimited(l.failures));
    NewSkipIsExplained(limits, tree, world, count, l.totalBytes, RateLimited(ledger.failures),
      RateLimited(l.failures), evicting, e, fate);
  }

  lemma MoreFailures(some: seq<Failure>, all: seq<Failure>)
    requires some <= all
    ensures RateLimited(some) ==> RateLimited(all)
  {
    hide IsRateLimit;
    if RateLimited(some) {
      var f :| f in some && IsRateLimit(f.code);
      var i :| 0 <= i < |some| && some[i] == f;
      assert all[i] == f;
    }
  }

  lemma LastFailure(failures: seq<Failure>, f: Failure)
    ensures RateLimited(failures + [f]) == (RateLimited(failures) || IsRateLimit(f.code))
  {
    hide IsRateLimit;
    assert f in failures + [f];
    MoreFailures(failures, failures + [f]);
  }

  lemma NewFileIsGenuine(limits: Limits, tree: Tree, world: World, count: nat, e: Entry, blob: CachedBlob)
    requires Offered(tree, e) && DeliveredAs(limits, world, count, File(e.path, e.sha, blob.byteLength, blob.text))
    ensures FileIsGenuine(limits, tree, world, count, File(e.path, e.sha, blob.byteLength, blob.text))
  {
    hide Offered, DeliveredAs;
  }

  lemma NewSkipIsExplained(limits: Limits, tree: Tree, world: World, count: nat, total: nat, limited: bool,
      limited': bool, evicting: bool, e: Entry, fate: Fate)
    requires Offered(tree, e) && Why(limits, world, count, total, limited, evicting, e, fate) && (limited ==> limited')
    ensures Explained(limits, tree, world, count, total, limited', evicting, e.path, fate)
  {
    WhyStays(limits, world, count, total, limited, evicting, count, total, limited', e, fate);
    hide Offered, Why;
  }

  // ----- the memo is true -----

  ghost predicate MemoIsTrue(limits: Limits, world: World, count: nat, sha: string, t: Terminal) {
    match t
    case TooLarge => TooLargeBlob(limits, world, count, sha)
    case NotText => BinaryBlob(limits, world, count, sha)
    case Pointer => LfsBlob(limits, world, count, sha)
    case Broken(code) => FailedBlob(limits, world, count, sha, code, false)
  }

  ghost predicate MemosAreTrue(limits: Limits, world: World, count: nat, st: State) {
    && (forall sha :: sha in st.cached ==>
          DeliveredAs(limits, world, count, File("", sha, st.cached[sha].byteLength, st.cached[sha].text)))
    && (forall sha :: sha in st.terminal ==> MemoIsTrue(limits, world, count, sha, st.terminal[sha]))
  }

  lemma MemosStayTrue(limits: Limits, world: World, count: nat, count': nat, st: State)
    requires MemosAreTrue(limits, world, count, st) && count <= count'
    ensures MemosAreTrue(limits, world, count', st)
  {
    assert forall sha, reply :: Told(world, count, sha, reply) ==> Told(world, count', sha, reply);
    hide Told, StartsWith;
  }

  lemma ReplyGivesReason(limits: Limits, world: World, count: nat, total: nat, limited: bool, e: Entry, reply: Reply)
    requires Told(world, count, e.sha, reply)
    ensures var ruling := RuleReply(limits, total, reply);
      ruling.Meets? ==>
        && Why(limits, world, count, total, limited, false, e, ruling.fate)
        && (ruling.note.Some? ==> MemoIsTrue(limits, world, count, e.sha, ruling.note.value))
  {
    hide Told, StartsWith, IsRateLimit, Reservation;
  }

  /** However a candidate of a batch is settled, there is a reason, and what is noted for its blob is so. */
  lemma RulingGivesReason(limits: Limits, world: World, count: nat, st: State, limited: bool, e: Entry,
      reply: Option<Reply>)
    requires MemosAreTrue(limits, world, count, st)
    requires reply.Some? ==> Told(world, count, e.sha, reply.value)
    requires Known(st, e.sha) || reply.Some?
    ensures var ruling := Rule(limits, st.ledger.totalBytes, e, Lookup(st.terminal, e.sha), Lookup(st.cached, e.sha),
      reply);
      ruling.Meets? ==>
        && Why(limits, world, count, st.ledger.totalBytes, limited, false, e, ruling.fate)
        && (ruling.note.Some? ==> MemoIsTrue(limits, world, count, e.sha, ruling.note.value))
  {
    if reply.Some? { ReplyGivesReason(limits, world, count, st.ledger.totalBytes, limited, e, reply.value); }
    hide Told, StartsWith, IsRateLimit, RuleReply;
  }

  // ----- every state of a run is genuine -----

  /** The books are true, so is the memo, and all candidates come from the tree. */
  ghost predicate AllTrue(limits: Limits, tree: Tree, world: World, count: nat, evicting: bool, st: State) {
    && Genuine(limits, tree, world, count, evicting, st.ledger)
    && MemosAreTrue(limits, world, count, st)
    && (st.rateLimited <==> RateLimited(st.ledger.failures))
    && (forall c :: c in st.retained ==> Offered(tree, c.entry))
  }

  lemma WhyWithEviction(limits: Limits, world: World, count: nat, total: nat, limited: bool, evicting: bool, e: Entry,
      fate: Fate)
    requires Why(limits, world, count, total, limited, false, e, fate)
    ensures Why(limits, world, count, total, limited, evicting, e, fate)
  {
  }

  lemma {:induction false} RetainStaysTrue(limits: Limits, tree: Tree, world: World, count: nat, evicting: bool,
      st: State, c: Candidate, reply: Option<Reply>)
    requires AllTrue(limits, tree, world, count, evicting, st) && Offered(tree, c.entry)
    requires reply.Some? ==> Told(world, count, c.entry.sha, reply.value)
    requires Known(st, c.entry.sha) || reply.Some?
    ensures var r := Retain(limits, st, c, reply);
      r.Some? ==> AllTrue(limits, tree, world, count, evicting, r.value) && forall sha :: Known(st, sha) ==> Known(r.value, sha)
  {
    hide Genuine, Offered, Why, Rule, Told, RateLimited, IsRateLimit, MemoIsTrue;
    var e, limited := c.entry, RateLimited(st.ledger.failures);
    RulingGivesReason(limits, world, count, st, limited, e, reply);
    var ruling := Rule(limits, st.ledger.totalBytes, e, Lookup(st.terminal, e.sha), Lookup(st.cached, e.sha), reply);
    if ruling.Meets? {
      WhyWithEviction(limits, world, count, st.ledger.totalBytes, limited, evicting, e, ruling.fate);
      RecordStaysGenuine(limits, tree, world, count, evicting, st.ledger, e, ruling.fate);
      if ruling.fate.Acquired? {
        AcquiredIsDelivered(limits, world, count, st.ledger.totalBytes, limited, evicting, e, ruling.fate.blob);
      }
    }
  }

  lemma AcquiredIsDelivered(limits: Limits, world: World, count: nat, total: nat, limited: bool, evicting: bool,
      e: Entry, blob: CachedBlob)
    requires Why(limits, world, count, total, limited, evicting, e, Acquired(blob))
    ensures DeliveredAs(limits, world, count, File("", e.sha, blob.byteLength, blob.text))
  {
  }

  lemma {:induction false} RetainBatchStaysTrue(limits: Limits, tree: Tree, world: World, count: nat, evicting: bool,
      st: State, batch: seq<Candidate>, replies: map<string, Reply>)
    requires AllTrue(limits, tree, world, count, evicting, st)
    requires forall c :: c in batch ==> Offered(tree, c.entry) && (Known(st, c.entry.sha) || c.entry.sha in replies)
    requires forall sha :: sha in replies ==> Told(world, count, sha, replies[sha])
    ensures var r := RetainBatch(limits, st, batch, replies);
      r.Some? ==> AllTrue(limits, tree, world, count, evicting, r.value)
    decreases |batch|
  {
    hide AllTrue, Offered, Told, Retain, Known;
    if batch != [] {
      var c := batch[0];
      assert c in batch;
      RetainStaysTrue(limits, tree, world, count, evicting, st, c, Lookup(replies, c.entry.sha));
      var st' := Retain(limits, st, c, Lookup(replies, c.entry.sha));
      if st'.Some? {
        assert forall d :: d in batch[1..] ==> d in batch;
        RetainBatchStaysTrue(limits, tree, world, count, evicting, st'.value, batch[1..], replies);
      }
    }
  }

  lemma DecisionHasReason(limits: Limits, world: World, st: State, batch: seq<Candidate>, pending: seq<string>,
      reserved: nat, evicting: bool)
    requires st.next < |st.retained| && (batch == [] ==> reserved == 0)
    ensures var d := Decide(limits, st, batch, pending, reserved);
      d.TurnDown? ==> Why(limits, world, st.requests + |pending|, st.ledger.totalBytes, st.rateLimited, evicting,
        st.retained[st.next].entry, d.fate)
  {
  }

  /** Forming a batch turns candidates away for a reason only, and asks no more than the client allows. */
  lemma {:induction false} FormBatchStaysTrue(limits: Limits, tree: Tree, world: World, evicting: bool, st: State,
      batch: seq<Candidate>, pending: seq<string>, reserved: nat)
    requires st.next <= |st.retained| && (batch == [] ==> reserved == 0)
    requires AllTrue(limits, tree, world, st.requests + |pending|, evicting, st)
    requires st.requests + |pending| <= limits.maxRequests
    requires forall c :: c in batch ==> Offered(tree, c.entry)
    ensures var f := FormBatch(limits, st, batch, pending, reserved);
      && AllTrue(limits, tree, world, f.st.requests + |f.pending|, evicting, f.st)
      && f.st.requests + |f.pending| <= limits.maxRequests
      && (forall c :: c in f.batch ==> Offered(tree, c.entry))
    decreases |st.retained| - st.next
  {
    hide AllTrue, Offered, Why;
    if |batch| >= BATCH_SIZE || st.next == |st.retained| { return; }
    var c := st.retained[st.next];
    CandidatesAreOffered(limits, tree, world, st.requests + |pending|, evicting, st);
    match Decide(limits, st, batch, pending, reserved) {
      case Close =>
      case TurnDown(fate) =>
        DecisionHasReason(limits, world, st, batch, pending, reserved, evicting);
        TurnAwayStaysTrue(limits, tree, world, st.requests + |pending|, evicting, st, fate);
        FormBatchStaysTrue(limits, tree, world, evicting, TurnAway(st, fate), batch, pending, reserved);
      case Accept =>
        var st', pending' := st.(next := st.next + 1), PendingWith(st, pending, c.entry.sha);
        OneMoreRequest(limits, tree, world, evicting, st, |pending|, |pending'|);
        FormBatchStaysTrue(limits, tree, world, evicting, st', batch + [c], pending',
          reserved + Reservation(limits, c.entry));
    }
  }

  lemma CandidatesAreOffered(limits: Limits, tree: Tree, world: World, count: nat, evicting: bool, st: State)
    requires AllTrue(limits, tree, world, count, evicting, st)
    ensures forall c :: c in st.retained ==> Offered(tree, c.entry)
  {
    hide Offered, Genuine, MemosAreTrue, RateLimited;
  }

  lemma TurnAwayStaysTrue(limits: Limits, tree: Tree, world: World, count: nat, evicting: bool, st: State, fate: Fate)
    requires AllTrue(limits, tree, world, count, evicting, st) && st.next < |st.retained|
    requires fate.Oversized? || fate.OverBudget?
    requires Why(limits, world, count, st.ledger.totalBytes, st.rateLimited, evicting, st.retained[st.next].entry, fate)
    ensures AllTrue(limits, tree, world, count, evicting, TurnAway(st, fate))
  {
    hide Offered, Genuine, RateLimited, Why, MemoIsTrue;
    assert Offered(tree, st.retained[st.next].entry);
    RecordStaysGenuine(limits, tree, world, count, evicting, st.ledger, st.retained[st.next].entry, fate);
  }

  lemma OneMoreRequest(limits: Limits, tree: Tree, world: World, evicting: bool, st: State, some: nat, more: nat)
    requires AllTrue(limits, tree, world, st.requests + some, evicting, st) && some <= more
    ensures AllTrue(limits, tree, world, st.requests + more, evicting, st.(next := st.next + 1))
  {
    hide Offered, Genuine, RateLimited, MemosAreTrue;
    GenuineStays(limits, tree, world, st.requests + some, st.requests + more, evicting, st.ledger);
    MemosStayTrue(limits, world, st.requests + some, st.requests + more, st);
    SameMemos(limits, world, st.requests + more, st, st.(next := st.next + 1));
  }

  lemma SameMemos(limits: Limits, world: World, count: nat, st: State, st': State)
    requires MemosAreTrue(limits, world, count, st) && st'.cached == st.cached && st'.terminal == st.terminal
    ensures MemosAreTrue(limits, world, count, st')
  {
    hide MemoIsTrue, DeliveredAs;
  }

  lemma {:induction false} AvailableAreOffered(tree: Tree, entries: seq<Entry>)
    requires forall e :: e in entries ==> e in tree.entries
    ensures forall e :: e in Available(entries) ==> Offered(tree, e)
  {
    hide IsCanonicalPath, IsIgnoredPath, IsConfigurationCandidatePath;
    if entries != [] { AvailableAreOffered(tree, entries[1..]); }
  }

  lemma {:induction false} CandidatesComeFromTree(tree: Tree, entries: seq<Entry>, hasSelector: bool)
    requires forall e :: e in entries ==> e in tree.entries
    ensures forall c :: c in Candidates(entries, hasSelector) ==> Offered(tree, c.entry)
  {
    hide IsCanonicalPath, IsIgnoredPath, IsUnsupportedSourcePath, IsInitiallySupportedPath, KindOf;
    if entries != [] { CandidatesComeFromTree(tree, entries[1..], hasSelector); }
  }

  /** A path that the selector pushes out, or cannot bring in. */
  lemma {:induction false} EvictedStaysTrue(limits: Limits, tree: Tree, world: World, count: nat, ledger: Ledger,
      e: Entry)
    requires Genuine(limits, tree, world, count, true, ledger) && Offered(tree, e)
    ensures Genuine(limits, tree, world, count, true, OverBudgetPath(ledger, e.path))
  {
    RecordStaysGenuine(limits, tree, world, count, true, ledger, e, OverBudget);
  }

  /** The selector can only have turned something away once the file cap was reached. */
  predicate Evicts(limits: Limits, selector: Option<Selector>, st: State) {
    selector.Some? && |st.retained| >= limits.maxFiles
  }

  lemma {:induction false} GenuineWithEviction(limits: Limits, tree: Tree, world: World, count: nat, ledger: Ledger)
    requires Genuine(limits, tree, world, count, false, ledger)
    ensures Genuine(limits, tree, world, count, true, ledger)
  {
    hide FileIsGenuine, Offered, Why, RateLimited;
    var total, limited := ledger.totalBytes, RateLimited(ledger.failures);
    forall path, fate | Explained(limits, tree, world, count, total, limited, false, path, fate)
      ensures Explained(limits, tree, world, count, total, limited, true, path, fate)
    {
      var e :| Offered(tree, e) && e.path == path && Why(limits, world, count, total, limited, false, e, fate);
      WhyWithEviction(limits, world, count, total, limited, true, e, fate);
    }
  }

  lemma TrueWithEviction(limits: Limits, tree: Tree, world: World, count: nat, some: bool, more: bool, st: State)
    requires AllTrue(limits, tree, world, count, some, st) && (some ==> more)
    ensures AllTrue(limits, tree, world, count, more, st)
  {
    hide Genuine, MemosAreTrue, Offered, RateLimited;
    if more && !some { GenuineWithEviction(limits, tree, world, count, st.ledger); }
  }

  lemma {:induction false} SelectStaysTrue(limits: Limits, tree: Tree, world: World, count: nat, available: seq<Entry>,
      evicting: bool, st: State, selected: seq<string>, additions: seq<Candidate>)
    requires AllTrue(limits, tree, world, count, evicting, st) && st.next <= |st.retained|
    requires evicting || |Select(limits, available, st, selected, additions).retained| < limits.maxFiles
    requires forall e :: e in available ==> Offered(tree, e)
    requires forall c :: c in additions ==> Offered(tree, c.entry)
    ensures AllTrue(limits, tree, world, count, evicting, Select(limits, available, st, selected, additions))
    decreases |selected|
  {
    hide Genuine, MemosAreTrue, Offered, RateLimited;
    SelectNeverShrinks(limits, available, st, selected, additions);
    if selected == [] {
      SameMemos(limits, world, count, st, Select(limits, available, st, selected, additions));
      return;
    }
    var path, later := selected[0], selected[1..];
    if path in st.queued {
      var i := FindPending(st.retained, st.next, path);
      if i.Some? {
        var st' := st.(retained := RemoveAt(st.retained, i.value));
        SameMemos(limits, world, count, st, st');
        SelectStaysTrue(limits, tree, world, count, available, evicting, st', later, additions + [st.retained[i.value]]);
      } else {
        SelectStaysTrue(limits, tree, world, count, available, evicting, st, later, additions);
      }
      return;
    }
    var entry := FindEntry(available, path);
    if entry.None? {
      SelectStaysTrue(limits, tree, world, count, available, evicting, st, later, additions);
    } else if |st.retained| + |additions| >= limits.maxFiles {
      var i := FindReplaceable(st.retained, st.next, |st.retained|);
      if i.None? {
        EvictedStaysTrue(limits, tree, world, count, st.ledger, entry.value);
        var st' := st.(ledger := OverBudgetPath(st.ledger, path));
        SameMemos(limits, world, count, st, st');
        SelectStaysTrue(limits, tree, world, count, available, evicting, st', later, additions);
      } else {
        var replaced := st.retained[i.value].entry;
        EvictedStaysTrue(limits, tree, world, count, st.ledger, replaced);
        var st' := st.(retained := RemoveAt(st.retained, i.value), ledger := OverBudgetPath(st.ledger, replaced.path),
          queued := st.queued - {replaced.path} + {path});
        SameMemos(limits, world, count, st, st');
        SelectStaysTrue(limits, tree, world, count, available, evicting, st', later,
          additions + [AcquisitionModel.Candidate(entry.value, Config)]);
      }
    } else {
      var st' := st.(queued := st.queued + {path});
      SameMemos(limits, world, count, st, st');
      SelectStaysTrue(limits, tree, world, count, available, evicting, st', later,
        additions + [AcquisitionModel.Candidate(entry.value, Config)]);
    }
  }

  lemma {:induction false} RepliesAreTold(limits: Limits, world: World, requests: nat, pending: seq<string>)
    requires METADATA_REQUESTS <= requests && requests + |pending| <= limits.maxRequests
    ensures var (replies, count) := FetchAll(limits, world, requests, pending);
      && count == requests + |pending|
      && (forall sha :: sha in replies <==> sha in pending)
      && (forall sha :: sha in replies ==> Told(world, count, sha, replies[sha]))
  {
    FetchAllCounts(limits, world, requests, pending);
  }

  lemma {:induction false} RoundStaysTrue(limits: Limits, tree: Tree, world: World, selector: Option<Selector>,
      available: seq<Entry>, st: State)
    requires st.next < |st.retained| && METADATA_REQUESTS <= st.requests <= limits.maxRequests
    requires AllTrue(limits, tree, world, st.requests, Evicts(limits, selector, st), st)
    requires forall e :: e in available ==> Offered(tree, e)
    ensures var r := Round(limits, world, selector, available, st);
      r.Some? ==>
        && AllTrue(limits, tree, world, r.value.requests, Evicts(limits, selector, r.value), r.value)
        && st.requests <= r.value.requests <= limits.maxRequests
  {
    hide AllTrue, Offered, Told, FormBatch, RetainBatch, FetchAll, Select, Known;
    var evicting := Evicts(limits, selector, st);
    var f := FormBatch(limits, st, [], [], 0);
    FormBatchPlaces(limits, st, [], [], 0);
    FormBatchStaysTrue(limits, tree, world, evicting, st, [], [], 0);
    BatchIsAnswerable(limits, st, [], [], 0);
    RepliesAreTold(limits, world, f.st.requests, f.pending);
    var (replies, count) := FetchAll(limits, world, f.st.requests, f.pending);
    var fetched := f.st.(requests := count);
    CountedStaysTrue(limits, tree, world, count, evicting, f.st, fetched, f.batch);
    RetainBatchPlaces(limits, fetched, f.batch, replies);
    RetainBatchStaysTrue(limits, tree, world, count, evicting, fetched, f.batch, replies);
    var r := RetainBatch(limits, fetched, f.batch, replies);
    if r.Some? && selector.Some? {
      var selected := Take(selector.value(r.value.ledger.files, EntryPaths(available), r.value.next), SELECTION_SIZE);
      var after := Select(limits, available, r.value, selected, []);
      SelectNeverShrinks(limits, available, r.value, selected, []);
      TrueWithEviction(limits, tree, world, count, evicting, Evicts(limits, selector, after), r.value);
      SelectStaysTrue(limits, tree, world, count, available, Evicts(limits, selector, after), r.value, selected, []);
      SelectLeavesRequests(limits, available, r.value, selected, []);
    }
  }

  lemma CountedStaysTrue(limits: Limits, tree: Tree, world: World, count: nat, evicting: bool, st: State, st': State,
      batch: seq<Candidate>)
    requires AllTrue(limits, tree, world, count, evicting, st) && st' == st.(requests := count)
    ensures AllTrue(limits, tree, world, count, evicting, st')
    ensures forall sha :: Known(st, sha) <==> Known(st', sha)
  {
    hide Genuine, MemosAreTrue, Offered, RateLimited;
    SameMemos(limits, world, count, st, st');
  }

  lemma SelectLeavesRequests(limits: Limits, available: seq<Entry>, st: State, selected: seq<string>,
      additions: seq<Candidate>)
    requires st.next <= |st.retained|
    ensures Select(limits, available, st, selected, additions).requests == st.requests
    decreases |selected|
  {
  }

  lemma {:induction false} RunStaysTrue(limits: Limits, tree: Tree, world: World, selector: Option<Selector>,
      available: seq<Entry>, st: State)
    requires st.next <= |st.retained| <= limits.maxFiles && METADATA_REQUESTS <= st.requests <= limits.maxRequests
    requires AllTrue(limits, tree, world, st.requests, Evicts(limits, selector, st), st)
    requires forall e :: e in available ==> Offered(tree, e)
    ensures var r := Run(limits, world, selector, available, st);
      r.Some? ==> AllTrue(limits, tree, world, r.value.requests, Evicts(limits, selector, r.value), r.value)
    decreases limits.maxFiles - st.next
  {
    hide AllTrue, Offered, Round, Evicts;
    if st.next < |st.retained| {
      RoundAdvances(limits, world, selector, available, st);
      RoundStaysTrue(limits, tree, world, selector, available, st);
      var r := Round(limits, world, selector, available, st);
      if r.Some? { RunStaysTrue(limits, tree, world, selector, available, r.value); }
    }
  }

  lemma {:induction false} InitialIsTrue(limits: Limits, tree: Tree, world: World, hasSelector: bool, evicting: bool)
    ensures AllTrue(limits, tree, world, METADATA_REQUESTS, evicting, Initial(limits, tree, hasSelector))
  {
    hide Offered;
    CandidatesComeFromTree(tree, tree.entries, hasSelector);
    SortMembers(CandidateBefore, Candidates(tree.entries, hasSelector));
  }

  /** Whatever the provider answers and the selector asks for: every acquired file is a blob of the tree
      as the provider delivered it within the limits, and every skipped path is listed for its reason; a
      selector is a reason only once the file cap was reached. */
  lemma {:induction false} AcquisitionIsGenuine(limits: Limits, tree: Tree, world: World, selector: Option<Selector>)
    requires METADATA_REQUESTS <= limits.maxRequests
    ensures var r := Run(limits, world, selector, Available(tree.entries), Initial(limits, tree, selector.Some?));
      r.Some? ==> Genuine(limits, tree, world, r.value.requests, Evicts(limits, selector, r.value), r.value.ledger)
  {
    hide Run, Initial, Genuine, Offered, MemosAreTrue, RateLimited, Evicts;
    var st := Initial(limits, tree, selector.Some?);
    InitialPlaces(limits, tree, selector.Some?);
    InitialIsTrue(limits, tree, world, selector.Some?, Evicts(limits, selector, st));
    AvailableAreOffered(tree, tree.entries);
    RunStaysTrue(limits, tree, world, selector, Available(tree.entries), st);
  }

  /** How many paths the books account for. */
  function Handled(books: Ledger): nat {
    |AcquiredFiles(books)| + |books.oversized| + |books.overBudget| + |books.binary| + |books.lfs| + |books.failed|
  }

  /** Every candidate of the list is accounted for, and so is every path turned away. */
  lemma {:induction false} BooksHandleAll(st: State, turnedAway: multiset<string>)
    requires forall p :: Tally(st.ledger, p) == Bag(st.retained)[p] + turnedAway[p]
    ensures Handled(st.ledger) == |st.retained| + |turnedAway|
  {
    var l := st.ledger;
    var all := AcquiredPaths(l) + multiset(l.oversized) + multiset(l.overBudget) + multiset(l.binary) + multiset(l.lfs)
      + multiset(l.failed);
    var whole := Bag(st.retained) + turnedAway;
    forall p ensures all[p] == whole[p] { assert all[p] == Tally(l, p); }
    assert all == whole;
    assert |whole| == |Paths(st.retained)| + |turnedAway|;
    assert |all| == |FilePaths(AcquiredFiles(l))| + |l.oversized| + |l.overBudget| + |l.binary| + |l.lfs| + |l.failed|;
  }

  /** On the books alone: a selector explains nothing unless they account for as many paths as the file cap
      allows. */
  lemma {:induction false} BooksAreGenuine(limits: Limits, tree: Tree, world: World, selector: Option<Selector>, final: State)
    requires METADATA_REQUESTS <= limits.maxRequests && DistinctPaths(tree.entries)
    requires Run(limits, world, selector, Available(tree.entries), Initial(limits, tree, selector.Some?)) == Some(final)
    ensures Genuine(limits, tree, world, final.requests,
      selector.Some? && Handled(final.ledger) >= limits.maxFiles, final.ledger)
  {
    hide Run, Initial, Genuine, Handled, Tally, Bag;
    AcquisitionIsGenuine(limits, tree, world, selector);
    var turnedAway := AcquisitionIsSafe(limits, tree, world, selector);
    BooksHandleAll(final, turnedAway);
    if !Evicts(limits, selector, final) && selector.Some? && Handled(final.ledger) >= limits.maxFiles {
      GenuineWithEviction(limits, tree, world, final.requests, final.ledger);
    }
  }

  lemma InitialPlaces(limits: Limits, tree: Tree, hasSelector: bool)
    ensures var st := Initial(limits, tree, hasSelector);
      st.next == 0 && |st.retained| <= limits.maxFiles && st.requests == METADATA_REQUESTS
  {
  }

  /** The files may be put in another order. */
  lemma SortedStaysGenuine(limits: Limits, tree: Tree, world: World, count: nat, evicting: bool, ledger: Ledger,
      files: seq<File>)
    requires Genuine(limits, tree, world, count, evicting, ledger) && forall f :: f in files <==> f in ledger.files
    ensures Genuine(limits, tree, world, count, evicting, ledger.(files := files))
  {
    hide FileIsGenuine, Explained, RateLimited;
  }
}
