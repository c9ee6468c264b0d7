/** The batched, reserving, SHA-deduplicated loop refines the obvious one: take the candidates in
    order, one at a time, and ask the provider afresh for each. */
module AcquisitionRefinement {
  import opened Text
  import opened AcquisitionModel
  import opened AcquisitionSafety

  // ----- the simple specification -----

  type Answer = string -> Reply

  function Alone(limits: Limits, answer: Answer, total: nat, entry: Entry): Ruling
  {
    if Reservation(limits, entry) > limits.maxFileBytes then Meets(Oversized, None)
    else if total + Reservation(limits, entry) > limits.maxTotalBytes then Meets(OverBudget, None)
    else RuleReply(limits, total, answer(entry.sha))
  }

  function OneByOne(limits: Limits, answer: Answer, ledger: Ledger, candidates: seq<Candidate>): Option<Ledger>
    decreases |candidates|
  {
    if candidates == [] then Some(ledger)
    else
      var entry := candidates[0].entry;
      var ruling := Alone(limits, answer, ledger.totalBytes, entry);
      if ruling.Threw? then None
      else OneByOne(limits, answer, Record(ledger, entry, ruling.fate), candidates[1..])
  }

  // ----- what is compared -----

  /** Every list is the same; the oversized paths are the same up to their order. The report only
      ever shows the oversized paths sorted (`samplePaths`). */
  predicate Agree(a: Ledger, b: Ledger) {
    a.(oversized := []) == b.(oversized := []) && multiset(a.oversized) == multiset(b.oversized)
  }

  predicate SameResult(a: Option<Ledger>, b: Option<Ledger>) {
    (a.None? && b.None?) || (a.Some? && b.Some? && Agree(a.value, b.value))
  }

  function ReportOf(st: Option<State>): Option<Ledger> {
    if st.None? then None else Some(st.value.ledger)
  }

  // ----- the setting: steady answers, honest sizes, enough requests -----

  predicate Steady(reply: Reply) {
    !reply.UnexpectedError? && (reply.RequestError? ==> !reply.retryable && !IsRateLimit(reply.code))
  }

  predicate Honest(entry: Entry, reply: Reply) {
    entry.size.Some? && reply.Blob? ==> reply.size == entry.size.value
  }

  predicate CalmEntry(answer: Answer, c: Candidate) {
    Steady(answer(c.entry.sha)) && Honest(c.entry, answer(c.entry.sha))
  }

  function Shas(candidates: seq<Candidate>): set<string> {
    set c | c in candidates :: c.entry.sha
  }

  ghost predicate Calm(limits: Limits, world: World, answer: Answer, candidates: seq<Candidate>) {
    && (forall sha, n :: world(sha, n) == answer(sha))
    && (forall c :: c in candidates ==> CalmEntry(answer, c))
    && METADATA_REQUESTS + |Shas(candidates)| <= limits.maxRequests
  }

  // ----- the memo tells the truth -----

  predicate MatchesCached(limits: Limits, reply: Reply, blob: CachedBlob) {
    && reply == Blob(blob.byteLength, Content(blob.text))
    && blob.byteLength <= limits.maxFileBytes && !StartsWith(blob.text, LFS_PREFIX)
  }

  predicate MatchesTerminal(limits: Limits, reply: Reply, terminal: Terminal) {
    match terminal
    case TooLarge => reply.Blob? && reply.size > limits.maxFileBytes
    case NotText => reply.Blob? && reply.size <= limits.maxFileBytes && reply.body == NonText
    case Pointer => reply.Blob? && reply.size <= limits.maxFileBytes && reply.body.Content? && StartsWith(reply.body.text, LFS_PREFIX)
    case Broken(code) =>
      || reply == RequestError(code, false)
      || (code == "github_invalid_blob_response"
          && (reply.Malformed? || (reply.Blob? && reply.size <= limits.maxFileBytes && reply.body.BadEncoding?)))
  }

  ghost predicate Truthful(limits: Limits, answer: Answer, st: State) {
    && (forall sha :: sha in st.cached ==> MatchesCached(limits, answer(sha), st.cached[sha]))
    && (forall sha :: sha in st.terminal ==> MatchesTerminal(limits, answer(sha), st.terminal[sha]))
    && !st.rateLimited
  }

  lemma InvalidBlobIsNoRateLimit()
    ensures !IsRateLimit("github_invalid_blob_response")
  {
    assert "github_invalid_blob_response"[15..][0] == 'b';
  }

  lemma TerminalTellsTheTruth(limits: Limits, total: nat, entry: Entry, terminal: Terminal, reply: Reply)
    requires MatchesTerminal(limits, reply, terminal) && Steady(reply) && Honest(entry, reply)
    requires Reservation(limits, entry) <= limits.maxFileBytes
    requires total + Reservation(limits, entry) <= limits.maxTotalBytes
    ensures var memo := RuleTerminal(terminal);
      var asked := RuleReply(limits, total, reply);
      && memo.Meets? && asked.Meets? && memo.fate == asked.fate && !memo.fate.OverBudget? && !memo.fate.Acquired?
      && (memo.note.Some? ==> MatchesTerminal(limits, reply, memo.note.value))
      && (memo.fate.Failed? ==> !IsRateLimit(memo.fate.code))
  {
    InvalidBlobIsNoRateLimit();
  }

  lemma FreshReplyFits(limits: Limits, total: nat, entry: Entry, reply: Reply)
    requires Steady(reply) && Honest(entry, reply)
    requires Reservation(limits, entry) <= limits.maxFileBytes
    requires total + Reservation(limits, entry) <= limits.maxTotalBytes
    ensures var asked := RuleReply(limits, total, reply);
      asked.Meets? ==>
        && !asked.fate.OverBudget?
        && (asked.note.Some? ==> MatchesTerminal(limits, reply, asked.note.value))
        && (asked.fate.Acquired? <==> asked.note.None?)
        && (asked.fate.Acquired? ==> MatchesCached(limits, reply, asked.fate.blob) && asked.fate.blob.byteLength <= Reservation(limits, entry))
        && (asked.fate.Failed? ==> !IsRateLimit(asked.fate.code))
  {
    InvalidBlobIsNoRateLimit();
  }

  lemma SameFate(limits: Limits, answer: Answer, st: State, c: Candidate, reply: Option<Reply>)
    requires Truthful(limits, answer, st) && CalmEntry(answer, c)
    requires Reservation(limits, c.entry) <= limits.maxFileBytes
    requires st.ledger.totalBytes + Reservation(limits, c.entry) <= limits.maxTotalBytes
    requires Known(st, c.entry.sha) || reply == Some(answer(c.entry.sha))
    requires reply.Some? ==> reply.value == answer(c.entry.sha)
    ensures var sha := c.entry.sha;
      var shared := Rule(limits, st.ledger.totalBytes, c.entry, Lookup(st.terminal, sha), Lookup(st.cached, sha),
        reply);
      var alone := Alone(limits, answer, st.ledger.totalBytes, c.entry);
      && (shared.Threw? <==> alone.Threw?)
      && (shared.Meets? ==>
            && shared.fate == alone.fate && !alone.fate.OverBudget?
            && (shared.note.Some? ==> MatchesTerminal(limits, answer(sha), shared.note.value))
            && (shared.fate.Acquired? ==> MatchesCached(limits, answer(sha), shared.fate.blob) && shared.fate.blob.byteLength <= Reservation(limits, c.entry))
            && (shared.fate.Failed? ==> !IsRateLimit(shared.fate.code))
            && (shared.note.Some? || shared.fate.Acquired? || sha in st.terminal))
  {
    var sha := c.entry.sha;
    FreshReplyFits(limits, st.ledger.totalBytes, c.entry, answer(sha));
    if sha in st.terminal {
      TerminalTellsTheTruth(limits, st.ledger.totalBytes, c.entry, st.terminal[sha], answer(sha));
    }
  }

  /** With room for its reservation, a candidate meets the same fate from the memo, from a shared
      reply, or from a request of its own; the retention-time byte check never fires. */
  lemma ReservationSuffices(limits: Limits, answer: Answer, st: State, c: Candidate, reply: Option<Reply>)
    requires Truthful(limits, answer, st) && CalmEntry(answer, c)
    requires Reservation(limits, c.entry) <= limits.maxFileBytes
    requires st.ledger.totalBytes + Reservation(limits, c.entry) <= limits.maxTotalBytes
    requires Known(st, c.entry.sha) || reply == Some(answer(c.entry.sha))
    requires reply.Some? ==> reply.value == answer(c.entry.sha)
    ensures var shared := Retain(limits, st, c, reply);
      var alone := Alone(limits, answer, st.ledger.totalBytes, c.entry);
      && (shared.None? <==> alone.Threw?)
      && (shared.Some? ==>
            && shared.value.ledger == Record(st.ledger, c.entry, alone.fate)
            && !alone.fate.OverBudget?
            && shared.value.ledger.totalBytes <= st.ledger.totalBytes + Reservation(limits, c.entry)
            && Truthful(limits, answer, shared.value)
            && Known(shared.value, c.entry.sha)
            && (forall sha :: Known(st, sha) ==> Known(shared.value, sha)))
  {
    hide Alone, Steady, Honest, MatchesTerminal, MatchesCached, Reservation;
    SameFate(limits, answer, st, c, reply);
  }

  // ----- sums of reservations -----

  function Reserved(limits: Limits, batch: seq<Candidate>): nat {
    if batch == [] then 0 else Reservation(limits, batch[0].entry) + Reserved(limits, batch[1..])
  }

  lemma ReservedAppend(limits: Limits, batch: seq<Candidate>, c: Candidate)
    ensures Reserved(limits, batch + [c]) == Reserved(limits, batch) + Reservation(limits, c.entry)
  {
    if batch == [] { assert batch + [c] == [c]; }
    else { assert (batch + [c])[1..] == batch[1..] + [c]; }
  }

  // ----- the simple specification commutes with an oversized path -----

  lemma {:induction false} AgreeCarriesOn(limits: Limits, answer: Answer, a: Ledger, b: Ledger, rest: seq<Candidate>)
    requires Agree(a, b)
    ensures SameResult(OneByOne(limits, answer, a, rest), OneByOne(limits, answer, b, rest))
    decreases |rest|
  {
    if rest != [] {
      var entry := rest[0].entry;
      var ruling := Alone(limits, answer, a.totalBytes, entry);
      if ruling.Meets? {
        RecordAgrees(a, b, entry, ruling.fate);
        AgreeCarriesOn(limits, answer, Record(a, entry, ruling.fate), Record(b, entry, ruling.fate), rest[1..]);
      }
    }
  }

  lemma RecordAgrees(a: Ledger, b: Ledger, entry: Entry, fate: Fate)
    requires Agree(a, b)
    ensures Agree(Record(a, entry, fate), Record(b, entry, fate))
  {
  }

  lemma OversizedCommutes(ledger: Ledger, e: Entry, f: Entry, fate: Fate)
    ensures Agree(Record(Record(ledger, e, Oversized), f, fate), Record(Record(ledger, f, fate), e, Oversized))
  {
  }

  /** An oversized candidate may be turned away before or after the others. */
  lemma {:induction false} OversizedEarlyOrLate(limits: Limits, answer: Answer, ledger: Ledger, c: Candidate,
      batch: seq<Candidate>, rest: seq<Candidate>)
    requires Reservation(limits, c.entry) > limits.maxFileBytes
    ensures SameResult(OneByOne(limits, answer, Record(ledger, c.entry, Oversized), batch + rest),
                       OneByOne(limits, answer, ledger, batch + ([c] + rest)))
    decreases |batch|
  {
    if batch == [] {
      assert batch + rest == rest && batch + ([c] + rest) == [c] + rest;
      AgreeCarriesOn(limits, answer, Record(ledger, c.entry, Oversized), Record(ledger, c.entry, Oversized), rest);
    } else {
      var entry := batch[0].entry;
      assert (batch + rest)[1..] == batch[1..] + rest;
      assert (batch + ([c] + rest))[1..] == batch[1..] + ([c] + rest);
      var ruling := Alone(limits, answer, ledger.totalBytes, entry);
      if ruling.Meets? {
        OversizedCommutes(ledger, c.entry, entry, ruling.fate);
        AgreeCarriesOn(limits, answer,
          Record(Record(ledger, c.entry, Oversized), entry, ruling.fate),
          Record(Record(ledger, entry, ruling.fate), c.entry, Oversized), batch[1..] + rest);
        OversizedEarlyOrLate(limits, answer, Record(ledger, entry, ruling.fate), c, batch[1..], rest);
      }
    }
  }

  // ----- forming a batch -----

  function Unknown(st: State, shas: set<string>): set<string> {
    set sha | sha in shas && !Known(st, sha)
  }

  function Members(pending: seq<string>): set<string> {
    set sha | sha in pending
  }

  predicate AllCalm(answer: Answer, candidates: seq<Candidate>, shas: set<string>) {
    forall c :: c in candidates ==> CalmEntry(answer, c) && c.entry.sha in shas
  }

  /** The batch fits the budgets with its reservations. */
  predicate Fits(limits: Limits, answer: Answer, total: nat, shas: set<string>, batch: seq<Candidate>, reserved: nat) {
    && AllCalm(answer, batch, shas)
    && (forall c :: c in batch ==> Reservation(limits, c.entry) <= limits.maxFileBytes)
    && reserved == Reserved(limits, batch)
    && total + reserved <= limits.maxTotalBytes
  }

  /** The pending SHAs are the unknown ones of the batch, each once. */
  ghost predicate Covers(st: State, shas: set<string>, batch: seq<Candidate>, pending: seq<string>) {
    && (forall c :: c in batch ==> Known(st, c.entry.sha) || c.entry.sha in pending)
    && Members(pending) <= Shas(batch)
    && Members(pending) <= Unknown(st, shas)
    && |Members(pending)| == |pending|
  }

  /** There is a request left for every SHA still unknown. */
  ghost predicate Ready(limits: Limits, answer: Answer, st: State, shas: set<string>, batch: seq<Candidate>,
      pending: seq<string>, reserved: nat) {
    && st.next <= |st.retained|
    && AllCalm(answer, st.retained[st.next..], shas)
    && Truthful(limits, answer, st)
    && Fits(limits, answer, st.ledger.totalBytes, shas, batch, reserved)
    && Covers(st, shas, batch, pending)
    && st.requests + |Unknown(st, shas)| <= limits.maxRequests
  }

  lemma PendingGrows(pending: seq<string>, sha: string)
    requires sha !in pending && |Members(pending)| == |pending|
    ensures Members(pending + [sha]) == Members(pending) + {sha}
    ensures |Members(pending + [sha])| == |pending| + 1
  {
    assert Members(pending + [sha]) == Members(pending) + {sha};
  }

  lemma SubsetSize(a: set<string>, b: set<string>)
    requires a <= b
    ensures |a| <= |b|
  {
    if a != {} {
      var x :| x in a;
      SubsetSize(a - {x}, b - {x});
    }
  }

  lemma RequestIsLeft(limits: Limits, answer: Answer, st: State, shas: set<string>, batch: seq<Candidate>,
      pending: seq<string>, reserved: nat)
    requires Ready(limits, answer, st, shas, batch, pending, reserved) && st.next < |st.retained|
    requires NeedsFetch(st, pending, st.retained[st.next].entry.sha)
    ensures st.requests + |pending| < limits.maxRequests
  {
    var sha := st.retained[st.next].entry.sha;
    assert st.retained[st.next] in st.retained[st.next..];
    assert Members(pending) + {sha} <= Unknown(st, shas);
    SubsetSize(Members(pending) + {sha}, Unknown(st, shas));
  }

  lemma TurnAwayReady(limits: Limits, answer: Answer, st: State, fate: Fate, shas: set<string>, batch: seq<Candidate>,
      pending: seq<string>, reserved: nat)
    requires Ready(limits, answer, st, shas, batch, pending, reserved) && st.next < |st.retained|
    requires fate.Oversized? || fate.OverBudget?
    ensures Ready(limits, answer, TurnAway(st, fate), shas, batch, pending, reserved)
  {
    var st' := TurnAway(st, fate);
    assert st.retained[st.next..] == [st.retained[st.next]] + st'.retained[st'.next..];
    SameKnowledge(st, st', shas, batch, pending);
  }

  lemma TakenCovers(st: State, shas: set<string>, batch: seq<Candidate>, pending: seq<string>, c: Candidate)
    requires Covers(st, shas, batch, pending) && c.entry.sha in shas
    ensures Covers(st, shas, batch + [c], PendingWith(st, pending, c.entry.sha))
  {
    ShasAppend(batch, c);
    if NeedsFetch(st, pending, c.entry.sha) { PendingGrows(pending, c.entry.sha); }
  }

  lemma TakenFits(limits: Limits, answer: Answer, total: nat, shas: set<string>, batch: seq<Candidate>, reserved: nat,
      c: Candidate)
    requires Fits(limits, answer, total, shas, batch, reserved) && CalmEntry(answer, c) && c.entry.sha in shas
    requires Reservation(limits, c.entry) <= limits.maxFileBytes
    requires total + reserved + Reservation(limits, c.entry) <= limits.maxTotalBytes
    ensures Fits(limits, answer, total, shas, batch + [c], reserved + Reservation(limits, c.entry))
  {
    ReservedAppend(limits, batch, c);
  }

  lemma TakenReady(limits: Limits, answer: Answer, st: State, shas: set<string>, batch: seq<Candidate>,
      pending: seq<string>, reserved: nat)
    requires Ready(limits, answer, st, shas, batch, pending, reserved) && st.next < |st.retained|
    requires Reservation(limits, st.retained[st.next].entry) <= limits.maxFileBytes
    requires st.ledger.totalBytes + reserved + Reservation(limits, st.retained[st.next].entry) <= limits.maxTotalBytes
    ensures var c := st.retained[st.next];
      Ready(limits, answer, st.(next := st.next + 1), shas, batch + [c],
        PendingWith(st, pending, c.entry.sha), reserved + Reservation(limits, c.entry))
  {
    var c := st.retained[st.next];
    var st' := st.(next := st.next + 1);
    assert st.retained[st.next..] == [c] + st'.retained[st'.next..];
    TakenFits(limits, answer, st.ledger.totalBytes, shas, batch, reserved, c);
    TakenCovers(st, shas, batch, pending, c);
    SameKnowledge(st, st', shas, batch + [c], PendingWith(st, pending, c.entry.sha));
  }

  lemma SameKnowledge(st: State, st': State, shas: set<string>, batch: seq<Candidate>, pending: seq<string>)
    requires st.cached == st'.cached && st.terminal == st'.terminal
    ensures Unknown(st, shas) == Unknown(st', shas)
    ensures Covers(st, shas, batch, pending) ==> Covers(st', shas, batch, pending)
  {
  }

  lemma ShasAppend(batch: seq<Candidate>, c: Candidate)
    ensures Shas(batch + [c]) == Shas(batch) + {c.entry.sha}
  {
    assert c in batch + [c];
  }

  predicate Settles(limits: Limits, answer: Answer, st: State, batch: seq<Candidate>, f: Formed)
    requires st.next <= f.st.next <= |st.retained|
  {
    SameResult(OneByOne(limits, answer, f.st.ledger, f.batch),
               OneByOne(limits, answer, st.ledger, batch + st.retained[st.next..f.st.next]))
  }

  lemma SettlesOversized(limits: Limits, answer: Answer, st: State, batch: seq<Candidate>, f: Formed)
    requires st.next < |st.retained| && Reservation(limits, st.retained[st.next].entry) > limits.maxFileBytes
    requires st.next + 1 <= f.st.next <= |st.retained|
    requires Settles(limits, answer, TurnAway(st, Oversized), batch, f)
    ensures Settles(limits, answer, st, batch, f)
  {
    var c := st.retained[st.next];
    var rest := st.retained[st.next + 1..f.st.next];
    assert st.retained[st.next..f.st.next] == [c] + rest;
    OversizedEarlyOrLate(limits, answer, st.ledger, c, batch, rest);
  }

  lemma SettlesOverBudget(limits: Limits, answer: Answer, st: State, f: Formed)
    requires st.next < |st.retained| && Reservation(limits, st.retained[st.next].entry) <= limits.maxFileBytes
    requires st.ledger.totalBytes + Reservation(limits, st.retained[st.next].entry) > limits.maxTotalBytes
    requires st.next + 1 <= f.st.next <= |st.retained|
    requires Settles(limits, answer, TurnAway(st, OverBudget), [], f)
    ensures Settles(limits, answer, st, [], f)
  {
    var c := st.retained[st.next];
    var rest := st.retained[st.next + 1..f.st.next];
    assert [] + st.retained[st.next..f.st.next] == [c] + rest;
    assert [] + rest == rest && ([c] + rest)[1..] == rest;
  }

  /** The reason the one-by-one rule gives too. */
  predicate Justified(limits: Limits, st: State, batch: seq<Candidate>, fate: Fate)
    requires st.next < |st.retained|
  {
    var reservation := Reservation(limits, st.retained[st.next].entry);
    || (fate.Oversized? && reservation > limits.maxFileBytes)
    || (fate.OverBudget? && batch == [] && reservation <= limits.maxFileBytes && st.ledger.totalBytes + reservation > limits.maxTotalBytes)
  }

  lemma TurnDownReady(limits: Limits, answer: Answer, st: State, fate: Fate, shas: set<string>, batch: seq<Candidate>,
      pending: seq<string>, reserved: nat)
    requires Ready(limits, answer, st, shas, batch, pending, reserved) && st.next < |st.retained|
    requires Decide(limits, st, batch, pending, reserved) == TurnDown(fate)
    ensures Justified(limits, st, batch, fate)
    ensures Ready(limits, answer, TurnAway(st, fate), shas, batch, pending, reserved)
  {
    if NeedsFetch(st, pending, st.retained[st.next].entry.sha) { RequestIsLeft(limits, answer, st, shas, batch, pending, reserved); }
    TurnAwayReady(limits, answer, st, fate, shas, batch, pending, reserved);
  }

  lemma SettlesTurnDown(limits: Limits, answer: Answer, st: State, batch: seq<Candidate>, fate: Fate, f: Formed)
    requires st.next < |st.retained| && Justified(limits, st, batch, fate)
    requires st.next + 1 <= f.st.next <= |st.retained|
    requires Settles(limits, answer, TurnAway(st, fate), batch, f)
    ensures Settles(limits, answer, st, batch, f)
  {
    if fate.Oversized? { SettlesOversized(limits, answer, st, batch, f); }
    else { SettlesOverBudget(limits, answer, st, f); }
  }

  lemma ReservedIsDetermined(limits: Limits, answer: Answer, st: State, shas: set<string>, batch: seq<Candidate>,
      pending: seq<string>, reserved: nat)
    requires Ready(limits, answer, st, shas, batch, pending, reserved)
    ensures reserved == Reserved(limits, batch) && st.next <= |st.retained|
  {
  }

  lemma {:induction false} FormBatchReady(limits: Limits, answer: Answer, st: State, shas: set<string>,
      batch: seq<Candidate>, pending: seq<string>, reserved: nat)
    requires Ready(limits, answer, st, shas, batch, pending, reserved)
    ensures var f := FormBatch(limits, st, batch, pending, reserved);
      Ready(limits, answer, f.st, shas, f.batch, f.pending, Reserved(limits, f.batch))
    decreases |st.retained| - st.next
  {
    hide Ready;
    ReservedIsDetermined(limits, answer, st, shas, batch, pending, reserved);
    if !(|batch| >= BATCH_SIZE || st.next == |st.retained|) {
      match Decide(limits, st, batch, pending, reserved) {
        case Close =>
        case TurnDown(fate) =>
          TurnDownReady(limits, answer, st, fate, shas, batch, pending, reserved);
          FormBatchReady(limits, answer, TurnAway(st, fate), shas, batch, pending, reserved);
        case Accept =>
          var c := st.retained[st.next];
          TakenReady(limits, answer, st, shas, batch, pending, reserved);
          FormBatchReady(limits, answer, st.(next := st.next + 1), shas, batch + [c],
            PendingWith(st, pending, c.entry.sha), reserved + Reservation(limits, c.entry));
      }
    }
  }

  /** Settling the batch after the formation-time rejections is settling the consumed stretch of
      candidates one by one. */
  lemma {:induction false} FormBatchRefines(limits: Limits, answer: Answer, st: State, shas: set<string>,
      batch: seq<Candidate>, pending: seq<string>, reserved: nat)
    requires Ready(limits, answer, st, shas, batch, pending, reserved)
    ensures var f := FormBatch(limits, st, batch, pending, reserved);
      st.next <= f.st.next <= |st.retained| && Settles(limits, answer, st, batch, f)
    decreases |st.retained| - st.next
  {
    hide Settles, Ready, OneByOne, Justified;
    ReservedIsDetermined(limits, answer, st, shas, batch, pending, reserved);
    var f := FormBatch(limits, st, batch, pending, reserved);
    FormBatchPlaces(limits, st, batch, pending, reserved);
    if |batch| >= BATCH_SIZE || st.next == |st.retained| {
      NothingConsumed(limits, answer, st, batch, f);
    } else {
      match Decide(limits, st, batch, pending, reserved) {
        case Close =>
          NothingConsumed(limits, answer, st, batch, f);
        case TurnDown(fate) =>
          TurnDownReady(limits, answer, st, fate, shas, batch, pending, reserved);
          FormBatchRefines(limits, answer, TurnAway(st, fate), shas, batch, pending, reserved);
          SettlesTurnDown(limits, answer, st, batch, fate, f);
        case Accept =>
          var c := st.retained[st.next];
          TakenReady(limits, answer, st, shas, batch, pending, reserved);
          FormBatchRefines(limits, answer, st.(next := st.next + 1), shas, batch + [c],
            PendingWith(st, pending, c.entry.sha), reserved + Reservation(limits, c.entry));
          SettlesAccept(limits, answer, st, batch, f);
      }
    }
  }

  lemma SettlesAccept(limits: Limits, answer: Answer, st: State, batch: seq<Candidate>, f: Formed)
    requires st.next < |st.retained| && st.next + 1 <= f.st.next <= |st.retained|
    requires Settles(limits, answer, st.(next := st.next + 1), batch + [st.retained[st.next]], f)
    ensures Settles(limits, answer, st, batch, f)
  {
    assert batch + st.retained[st.next..f.st.next]
      == (batch + [st.retained[st.next]]) + st.retained[st.next + 1..f.st.next];
  }

  lemma NothingConsumed(limits: Limits, answer: Answer, st: State, batch: seq<Candidate>, f: Formed)
    requires st.next <= |st.retained| && f.st == st && f.batch == batch
    ensures Settles(limits, answer, st, batch, f)
  {
    assert batch + st.retained[st.next..st.next] == batch;
  }

  // ----- retaining the batch -----

  lemma {:induction false} RetainBatchRefines(limits: Limits, answer: Answer, st: State, batch: seq<Candidate>,
      replies: map<string, Reply>)
    requires Truthful(limits, answer, st)
    requires st.ledger.totalBytes + Reserved(limits, batch) <= limits.maxTotalBytes
    requires forall c :: c in batch ==> CalmEntry(answer, c) && Reservation(limits, c.entry) <= limits.maxFileBytes
    requires forall c :: c in batch ==> Known(st, c.entry.sha) || c.entry.sha in replies
    requires forall sha :: sha in replies ==> replies[sha] == answer(sha)
    ensures var r := RetainBatch(limits, st, batch, replies);
      && ReportOf(r) == OneByOne(limits, answer, st.ledger, batch)
      && (r.Some? ==>
            && Truthful(limits, answer, r.value)
            && r.value.ledger.totalBytes <= st.ledger.totalBytes + Reserved(limits, batch)
            && (forall sha :: Known(st, sha) ==> Known(r.value, sha))
            && (forall c :: c in batch ==> Known(r.value, c.entry.sha)))
    decreases |batch|
  {
    if batch != [] {
      var c := batch[0];
      assert c in batch;
      assert forall d :: d in batch[1..] ==> d in batch;
      var reply := Lookup(replies, c.entry.sha);
      ReservationSuffices(limits, answer, st, c, reply);
      var st' := Retain(limits, st, c, reply);
      if st'.Some? {
        RetainBatchRefines(limits, answer, st'.value, batch[1..], replies);
      }
    }
  }

  // ----- rounds and runs -----

  lemma {:induction false} OneByOneAppend(limits: Limits, answer: Answer, ledger: Ledger, a: seq<Candidate>,
      b: seq<Candidate>)
    ensures var first := OneByOne(limits, answer, ledger, a);
      OneByOne(limits, answer, ledger, a + b) == if first.None? then None else OneByOne(limits, answer, first.value, b)
    decreases |a|
  {
    if a == [] {
      assert a + b == b;
    } else {
      assert (a + b)[1..] == a[1..] + b;
      var ruling := Alone(limits, answer, ledger.totalBytes, a[0].entry);
      if ruling.Meets? { OneByOneAppend(limits, answer, Record(ledger, a[0].entry, ruling.fate), a[1..], b); }
    }
  }

  /** What a round makes of the batch it formed. */
  lemma RoundRetains(limits: Limits, world: World, answer: Answer, available: seq<Entry>, st: State, shas: set<string>)
    requires Ready(limits, answer, st, shas, [], [], 0) && st.next < |st.retained|
    requires forall sha, n :: world(sha, n) == answer(sha)
    ensures var f := FormBatch(limits, st, [], [], 0);
      var r := Round(limits, world, None, available, st);
      && Ready(limits, answer, f.st, shas, f.batch, f.pending, Reserved(limits, f.batch))
      && ReportOf(r) == OneByOne(limits, answer, f.st.ledger, f.batch)
      && (r.Some? ==>
            && r.value.next == f.st.next && r.value.retained == f.st.retained
            && r.value.requests == f.st.requests + |f.pending|
            && Truthful(limits, answer, r.value)
            && r.value.ledger.totalBytes <= limits.maxTotalBytes
            && (forall sha :: Known(f.st, sha) ==> Known(r.value, sha))
            && (forall c :: c in f.batch ==> Known(r.value, c.entry.sha)))
  {
    hide OneByOne, FormBatch, RetainBatch, FetchAll;
    var f := FormBatch(limits, st, [], [], 0);
    FormBatchPlaces(limits, st, [], [], 0);
    FormBatchReady(limits, answer, st, shas, [], [], 0);
    SubsetSize(Members(f.pending), Unknown(f.st, shas));
    FetchAllCounts(limits, world, f.st.requests, f.pending);
    var (replies, count) := FetchAll(limits, world, f.st.requests, f.pending);
    RetainBatchPlaces(limits, f.st.(requests := count), f.batch, replies);
    RetainBatchRefines(limits, answer, f.st.(requests := count), f.batch, replies);
  }

  /** After a round as many requests are left as SHAs are unknown. */
  lemma RoundLeavesReady(limits: Limits, answer: Answer, f: Formed, r: State, shas: set<string>)
    requires Ready(limits, answer, f.st, shas, f.batch, f.pending, Reserved(limits, f.batch))
    requires r.next == f.st.next && r.retained == f.st.retained && r.requests == f.st.requests + |f.pending|
    requires Truthful(limits, answer, r) && r.ledger.totalBytes <= limits.maxTotalBytes
    requires forall sha :: Known(f.st, sha) ==> Known(r, sha)
    requires forall c :: c in f.batch ==> Known(r, c.entry.sha)
    ensures Ready(limits, answer, r, shas, [], [], 0)
  {
    hide Truthful, AllCalm, CalmEntry;
    forall sha | sha in Members(f.pending)
      ensures Known(r, sha)
    {
      var c :| c in f.batch && c.entry.sha == sha;
    }
    assert Unknown(r, shas) <= Unknown(f.st, shas) - Members(f.pending);
    SubsetSize(Unknown(r, shas), Unknown(f.st, shas) - Members(f.pending));
    assert AllCalm(answer, [], shas) by { NothingIsCalm(answer, shas); }
  }

  lemma NothingIsCalm(answer: Answer, shas: set<string>)
    ensures AllCalm(answer, [], shas)
  {
  }

  lemma RoundRefines(limits: Limits, world: World, answer: Answer, available: seq<Entry>, st: State, shas: set<string>)
    requires Ready(limits, answer, st, shas, [], [], 0) && st.next < |st.retained|
    requires forall sha, n :: world(sha, n) == answer(sha)
    ensures var f := FormBatch(limits, st, [], [], 0);
      var r := Round(limits, world, None, available, st);
      && st.next <= f.st.next <= |st.retained|
      && SameResult(ReportOf(r), OneByOne(limits, answer, st.ledger, st.retained[st.next..f.st.next]))
      && (r.Some? ==> r.value.next == f.st.next && r.value.retained == st.retained
                      && Ready(limits, answer, r.value, shas, [], [], 0))
  {
    hide OneByOne, FormBatch, Round, Ready, Truthful;
    var f := FormBatch(limits, st, [], [], 0);
    FormBatchPlaces(limits, st, [], [], 0);
    FormBatchRefines(limits, answer, st, shas, [], [], 0);
    assert [] + st.retained[st.next..f.st.next] == st.retained[st.next..f.st.next];
    RoundRetains(limits, world, answer, available, st, shas);
    var r := Round(limits, world, None, available, st);
    if r.Some? { RoundLeavesReady(limits, answer, f, r.value, shas); }
  }

  lemma {:induction false} RunRefines(limits: Limits, world: World, answer: Answer, available: seq<Entry>, st: State,
      shas: set<string>)
    requires Ready(limits, answer, st, shas, [], [], 0) && |st.retained| <= limits.maxFiles
    requires forall sha, n :: world(sha, n) == answer(sha)
    ensures SameResult(ReportOf(Run(limits, world, None, available, st)),
      OneByOne(limits, answer, st.ledger, st.retained[st.next..]))
    decreases limits.maxFiles - st.next
  {
    if st.next < |st.retained| {
      RoundAdvances(limits, world, None, available, st);
      RoundRefines(limits, world, answer, available, st, shas);
      var middle := FormBatch(limits, st, [], [], 0).st.next;
      assert st.retained[st.next..] == st.retained[st.next..middle] + st.retained[middle..];
      OneByOneAppend(limits, answer, st.ledger, st.retained[st.next..middle], st.retained[middle..]);
      var r := Round(limits, world, None, available, st);
      if r.Some? {
        RunRefines(limits, world, answer, available, r.value, shas);
        AgreeCarriesOn(limits, answer, r.value.ledger,
          OneByOne(limits, answer, st.ledger, st.retained[st.next..middle]).value, st.retained[middle..]);
      }
    }
  }

  /** Batched acquisition reports what one-path-at-a-time acquisition reports: the same manifest,
      files, byte total and outcome lists, or the same thrown configuration error. */
  lemma BatchedRefinesOneByOne(limits: Limits, tree: Tree, world: World, answer: Answer)
    requires Calm(limits, world, answer, Take(Ordered(tree, false), limits.maxFiles))
    ensures SameResult(
      ReportOf(Run(limits, world, None, Available(tree.entries), Initial(limits, tree, false))),
      OneByOne(limits, answer, EMPTY_LEDGER, Take(Ordered(tree, false), limits.maxFiles)))
  {
    var st := Initial(limits, tree, false);
    assert st.retained[0..] == st.retained;
    assert Unknown(st, Shas(st.retained)) == Shas(st.retained);
    RunRefines(limits, world, answer, Available(tree.entries), st, Shas(st.retained));
  }

  // ----- the order of oversized paths -----

  function Self(s: string): string { s }

  /** The oversized paths as the report samples them are therefore identical. */
  lemma SampledOversizedAgree(a: Ledger, b: Ledger)
    requires Agree(a, b)
    ensures Sort(ByKey(Self), a.oversized) == Sort(ByKey(Self), b.oversized)
  {
    PermutationsSortAlike(Self, a.oversized, b.oversized);
  }
}
