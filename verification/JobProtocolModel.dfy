/** The durable analysis protocol as a step system. The three tables and every guarded SQL statement
    come from `persistence/src/repository.ts`; the queue is Graphile Worker as its callers rely on it:
    at most one job per key (`unsafe_dedupe`), the same id on every retry, an attempts counter, and
    the job removed when its task returns. Each statement or transaction is one atomic step. */
module JobProtocolModel {
  import opened Text

  type Id = string

  datatype Status = Queued | Running | Completed | CompletedWithLimitations | Failed

  predicate Terminal(status: Status) {
    status.Completed? || status.CompletedWithLimitations? || status.Failed?
  }

  datatype Stage =
    | StageQueued | ResolvingRepository | CollectingSnapshot | CollectingMetadata | RunningRules | Scoring
    | StageCompleted | StageCompletedWithLimitations | StageFailed

  datatype FailureSummary = FailureSummary(code: string, message: string, retryable: bool)

  datatype Analysis = Analysis(
    url: string, ref: Option<string>, owner: Option<string>, connection: Option<string>,
    status: Status, stage: Stage, activeJob: Option<nat>,
    createdAt: nat, startedAt: Option<nat>, completedAt: Option<nat>, updatedAt: nat,
    retentionExpiresAt: Option<nat>, failure: Option<FailureSummary>)

  datatype DeliveryStatus = Pending | Delivering | Delivered
  datatype Delivery = Delivery(
    status: DeliveryStatus, attempts: nat, availableAt: nat, leaseToken: Option<string>,
    leaseExpiresAt: Option<nat>, deliveredAt: Option<nat>, updatedAt: nat)

  datatype Report = Report(limitations: nat, partialFailures: nat, content: string)

  datatype Db = Db(analyses: map<Id, Analysis>, reports: map<Id, Report>, deliveries: map<Id, Delivery>)

  datatype Submission = Submission(
    id: Id, url: string, ref: Option<string>, owner: Option<string>, connection: Option<string>,
    createdAt: nat, retentionExpiresAt: Option<nat>)

  // ----- the statements of `DrizzleAnalysisRepository` -----

  predicate Claimable(a: Analysis) {
    a.status == Queued && a.activeJob == None
  }

  function InsertQueued(db: Db, s: Submission): Db {
    if s.id in db.analyses then db
    else db.(analyses := db.analyses[s.id :=
      Analysis(s.url, s.ref, s.owner, s.connection, Queued, StageQueued, None, s.createdAt, None, None, s.createdAt,
        s.retentionExpiresAt, None)])
  }

  predicate SameInput(a: Analysis, s: Submission) {
    a.url == s.url && a.ref == s.ref && a.owner == s.owner && a.connection == s.connection
  }

  /** Without a delivery row; `false` when the id is bound to other input. */
  function Create(db: Db, s: Submission): (Db, bool) {
    var db' := InsertQueued(db, s);
    (db', SameInput(db'.analyses[s.id], s))
  }

  /** One transaction: a mismatch rolls everything back. */
  function CreateWithDelivery(db: Db, s: Submission): (Db, bool) {
    var db' := InsertQueued(db, s);
    var row := db'.analyses[s.id];
    if !SameInput(row, s) then (db, false)
    else if Claimable(row) && s.id !in db'.deliveries
    then (db'.(deliveries := db'.deliveries[s.id := Delivery(Pending, 0, s.createdAt, None, None, None, s.createdAt)]), true)
    else (db', true)
  }

  /** Every queued, unclaimed analysis gets a delivery row. */
  function Backfill(db: Db): Db {
    db.(deliveries := db.deliveries +
      (map id | id in db.analyses && Claimable(db.analyses[id]) && id !in db.deliveries
         :: Delivery(Pending, 0, db.analyses[id].updatedAt, None, None, None, db.analyses[id].updatedAt)))
  }

  predicate Due(d: Delivery, now: nat) {
    || (d.status == Pending && d.availableAt <= now)
    || (d.status == Delivering && d.leaseExpiresAt.Some? && d.leaseExpiresAt.value <= now)
  }

  predicate IsCandidate(db: Db, now: nat, id: Id) {
    && id in db.deliveries && id in db.analyses
    && Claimable(db.analyses[id]) && Due(db.deliveries[id], now)
  }

  /** Leases the chosen candidates; `FOR UPDATE SKIP LOCKED LIMIT` makes the choice the database's. */
  function LeaseDeliveries(db: Db, chosen: set<Id>, token: string, now: nat, expiresAt: nat): Db {
    db.(deliveries := map id | id in db.deliveries ::
      if id in chosen
      then db.deliveries[id].(status := Delivering, attempts := db.deliveries[id].attempts + 1,
        leaseToken := Some(token), leaseExpiresAt := Some(expiresAt), updatedAt := now)
      else db.deliveries[id])
  }

  predicate HoldsLease(db: Db, id: Id, token: string) {
    id in db.deliveries && db.deliveries[id].status == Delivering && db.deliveries[id].leaseToken == Some(token)
  }

  function MarkDelivered(db: Db, id: Id, token: string, at: nat): Db {
    if !HoldsLease(db, id, token) then db
    else db.(deliveries := db.deliveries[id :=
      db.deliveries[id].(status := Delivered, leaseToken := None, leaseExpiresAt := None, deliveredAt := Some(at),
        updatedAt := at)])
  }

  function RetryDelivery(db: Db, id: Id, token: string, availableAt: nat, at: nat): Db {
    if !HoldsLease(db, id, token) then db
    else db.(deliveries := db.deliveries[id :=
      db.deliveries[id].(status := Pending, leaseToken := None, leaseExpiresAt := None, availableAt := availableAt,
        updatedAt := at)])
  }

  predicate MayClaim(db: Db, id: Id, job: nat) {
    && id in db.analyses
    && (db.analyses[id].status == Queued || (db.analyses[id].status == Running && db.analyses[id].activeJob == Some(job)))
  }

  function ClaimForExecution(db: Db, id: Id, job: nat, startedAt: nat): (Db, bool) {
    if !MayClaim(db, id, job) then (db, false)
    else (db.(analyses := db.analyses[id :=
      db.analyses[id].(status := Running, activeJob := Some(job), startedAt := Some(startedAt), updatedAt := startedAt, failure := None)]), true)
  }

  function UpdateProgress(db: Db, id: Id, job: nat, stage: Stage, at: nat): Db {
    if id in db.analyses && db.analyses[id].status == Running && db.analyses[id].activeJob == Some(job)
    then db.(analyses := db.analyses[id := db.analyses[id].(stage := stage, updatedAt := at)])
    else db
  }

  predicate Holds(db: Db, id: Id, job: nat) {
    id in db.analyses && db.analyses[id].activeJob == Some(job) && !Terminal(db.analyses[id].status)
  }

  function MarkRetryPending(db: Db, id: Id, job: nat, summary: FailureSummary, at: nat): Db {
    if !Holds(db, id, job) then db
    else db.(analyses := db.analyses[id :=
      db.analyses[id].(status := Queued, stage := StageQueued, activeJob := None, failure := Some(summary),
        updatedAt := at)])
  }

  function CompletionStatus(report: Report): Status {
    if report.limitations > 0 || report.partialFailures > 0 then CompletedWithLimitations else Completed
  }

  function CompletionStage(report: Report): Stage {
    if report.limitations > 0 || report.partialFailures > 0 then StageCompletedWithLimitations else StageCompleted
  }

  /** One transaction: the row first, the report only when the row was still held. */
  function Complete(db: Db, id: Id, job: nat, report: Report, at: nat): Db {
    if !Holds(db, id, job) then db
    else db.(
      analyses := db.analyses[id :=
        db.analyses[id].(status := CompletionStatus(report), stage := CompletionStage(report), activeJob := None, completedAt := Some(at), updatedAt := at, failure := None)],
      reports := db.reports[id := report])
  }

  function Fail(db: Db, id: Id, job: nat, summary: FailureSummary, at: nat): Db {
    if id in db.analyses && (db.analyses[id].activeJob == None || db.analyses[id].activeJob == Some(job)) && !Terminal(db.analyses[id].status)
    then db.(analyses := db.analyses[id :=
      db.analyses[id].(status := Failed, stage := StageFailed, activeJob := None, failure := Some(summary),
        completedAt := Some(at), updatedAt := at)])
    else db
  }

  predicate Expired(a: Analysis, now: nat) {
    a.retentionExpiresAt.Some? && a.retentionExpiresAt.value <= now && Terminal(a.status) && a.activeJob == None
  }

  /** Deletes the chosen expired rows; reports and deliveries cascade. */
  function Purge(db: Db, chosen: set<Id>): Db {
    Db(db.analyses - chosen, db.reports - chosen, db.deliveries - chosen)
  }

  // ----- the queue and the processes around it -----

  const MAX_ATTEMPTS: nat := 5

  datatype Payload = Payload(id: Id, url: string, ref: Option<string>)

  /** `parseRepositoryAnalysisJobPayload` accepts it. */
  predicate Parses(p: Payload) {
    && 1 <= |p.id| <= 200 && 1 <= |p.url| <= 2000
    && (p.ref.Some? ==> 1 <= |p.ref.value| <= 500)
  }

  datatype Outcome =
    | ConnectionUnavailable
    | Interrupted
    | Crashed
    | ProviderError(summary: FailureSummary)
    | Success(report: Report)

  /** Where one attempt stands between two awaits of `executeRepositoryAnalysisJob`. */
  datatype Pc =
    | Begin
    | Mismatched
    | Claiming(startedAt: Option<nat>)
    | Working
    | Retrying(summary: FailureSummary)
    | Failing(summary: FailureSummary)
    | Reporting(report: Report)
    | Completing(report: Report)
    | Threw
    | Returned

  datatype Job = Job(id: nat, payload: Payload, attempts: nat, exec: Option<Pc>)

  /** A dispatcher's claimed delivery, in flight to the queue. */
  datatype Dispatch = Dispatch(payload: Payload, token: string, attempts: nat, enqueued: bool)

  datatype System = System(db: Db, jobs: map<Id, Job>, nextJob: nat, dispatches: set<Dispatch>, issued: set<Id>)

  const START := System(Db(map[], map[], map[]), map[], 0, {}, {})

  datatype Action =
    | Submit(submission: Submission, withDelivery: bool)
    | ClaimDeliveries(chosen: set<Id>, token: string, now: nat, expiresAt: nat)
    | Enqueue(d: Dispatch, acknowledged: bool)
    | FinishDispatch(d: Dispatch, at: nat)
    | AbandonDispatch(d: Dispatch, availableAt: nat, at: nat)
    | LoseDispatch(d: Dispatch)
    | StartJob(id: Id)
    | Read(id: Id)
    | FailMismatch(id: Id, at: nat)
    | Claim(id: Id, at: nat)
    | Progress(id: Id, stage: Stage, at: nat)
    | Decide(id: Id, outcome: Outcome)
    | Retry(id: Id, at: nat)
    | GiveUp(id: Id, at: nat)
    | ReportScoring(id: Id, at: nat)
    | Finish(id: Id, at: nat)
    | Return(id: Id)
    | Throw(id: Id)
    | CrashWorker(id: Id)
    | Sweep(chosen: set<Id>, now: nat)

  function PayloadOf(id: Id, a: Analysis): Payload {
    Payload(id, a.url, a.ref)
  }

  function At(s: System, id: Id): Option<Pc> {
    if id in s.jobs then s.jobs[id].exec else None
  }

  function SetExec(s: System, id: Id, pc: Option<Pc>): System
    requires id in s.jobs
  {
    s.(jobs := s.jobs[id := s.jobs[id].(exec := pc)])
  }

  predicate FinalAttempt(job: Job) {
    job.attempts >= MAX_ATTEMPTS
  }

  const MISMATCH := FailureSummary("job_input_mismatch",
    "Repository analysis job input does not match its persisted analysis.", false)
  const CONNECTION_UNAVAILABLE := FailureSummary("github_connection_unavailable",
    "Reconnect GitHub and submit a new analysis with repository access.", false)
  const INTERRUPTED := FailureSummary("repository_analysis_interrupted", "Repository analysis was interrupted.", true)
  const UNEXPECTED := FailureSummary("repository_analysis_unexpected_failure",
    "Repository analysis failed unexpectedly.", true)

  /** The branch taken after `findAnalysis`. */
  function AfterRead(db: Db, payload: Payload): Pc {
    if !Parses(payload) || payload.id !in db.analyses then Threw
    else
      var a := db.analyses[payload.id];
      if a.url != payload.url || a.ref != payload.ref then Mismatched
      else if Terminal(a.status) then Returned
      else Claiming(a.startedAt)
  }

  /** The branch taken once the analyzer has answered or thrown. */
  function AfterWork(job: Job, outcome: Outcome): Pc {
    match outcome
    case ConnectionUnavailable => Failing(CONNECTION_UNAVAILABLE)
    case Interrupted => if FinalAttempt(job) then Failing(INTERRUPTED) else Retrying(INTERRUPTED)
    case Crashed => if FinalAttempt(job) then Failing(UNEXPECTED) else Retrying(UNEXPECTED)
    case ProviderError(summary) => if summary.retryable && !FinalAttempt(job) then Retrying(summary) else Failing(summary)
    case Success(report) => Reporting(report)
  }

  /** `addJob` with a job key in `unsafe_dedupe` mode: nothing happens while the key is taken. */
  function AddJob(s: System, payload: Payload): System {
    if payload.id in s.jobs then s
    else s.(jobs := s.jobs[payload.id := Job(s.nextJob, payload, 0, None)], nextJob := s.nextJob + 1)
  }

  function DispatchesFor(db: Db, chosen: set<Id>, token: string): set<Dispatch> {
    set id | id in chosen && id in db.analyses && id in db.deliveries
      :: Dispatch(PayloadOf(id, db.analyses[id]), token, db.deliveries[id].attempts, false)
  }

  predicate WellFormed(s: Submission) {
    Parses(Payload(s.id, s.url, s.ref))
  }

  /** When a step can be taken. Analysis ids are never issued again once their row is gone, a job
      starts only while it is unlocked and has attempts left, so one execution per job id is live,
      and a worker dies only on an attempt that is not its last. */
  predicate Enabled(s: System, a: Action)
  {
    match a
    case Submit(input, _) => WellFormed(input) && (input.id in s.db.analyses || input.id !in s.issued)
    case ClaimDeliveries(chosen, _, now, _) => forall id :: id in chosen ==> IsCandidate(Backfill(s.db), now, id)
    case Enqueue(d, _) => d in s.dispatches && !d.enqueued
    case FinishDispatch(d, _) => d in s.dispatches && d.enqueued
    case AbandonDispatch(d, _, _) => d in s.dispatches
    case LoseDispatch(d) => d in s.dispatches
    case StartJob(id) => id in s.jobs && s.jobs[id].exec == None && s.jobs[id].attempts < MAX_ATTEMPTS
    case Read(id) => At(s, id) == Some(Begin)
    case FailMismatch(id, _) => At(s, id) == Some(Mismatched)
    case Claim(id, _) => At(s, id).Some? && At(s, id).value.Claiming?
    case Progress(id, _, _) => At(s, id) == Some(Working)
    case Decide(id, _) => At(s, id) == Some(Working)
    case Retry(id, _) => At(s, id).Some? && At(s, id).value.Retrying?
    case GiveUp(id, _) => At(s, id).Some? && At(s, id).value.Failing?
    case ReportScoring(id, _) => At(s, id).Some? && At(s, id).value.Reporting?
    case Finish(id, _) => At(s, id).Some? && At(s, id).value.Completing?
    case Return(id) => At(s, id) == Some(Returned)
    case Throw(id) => At(s, id) == Some(Threw)
    case CrashWorker(id) => At(s, id).Some? && s.jobs[id].attempts < MAX_ATTEMPTS
    case Sweep(chosen, now) => forall id :: id in chosen ==> id in s.db.analyses && Expired(s.db.analyses[id], now)
  }

  function Effect(s: System, a: Action): System
    requires Enabled(s, a)
  {
    match a
    case Submit(input, withDelivery) =>
      var (db', ok) := if withDelivery then CreateWithDelivery(s.db, input) else Create(s.db, input);
      s.(db := db', issued := s.issued + {input.id})
    case ClaimDeliveries(chosen, token, now, expiresAt) =>
      var db' := LeaseDeliveries(Backfill(s.db), chosen, token, now, expiresAt);
      s.(db := db', dispatches := s.dispatches + DispatchesFor(db', chosen, token))
    case Enqueue(d, acknowledged) =>
      var s' := AddJob(s, d.payload);
      if acknowledged then s'.(dispatches := s'.dispatches - {d} + {d.(enqueued := true)}) else s'
    case FinishDispatch(d, at) => s.(db := MarkDelivered(s.db, d.payload.id, d.token, at),
      dispatches := s.dispatches - {d})
    case AbandonDispatch(d, availableAt, at) => s.(db := RetryDelivery(s.db, d.payload.id, d.token, availableAt, at),
      dispatches := s.dispatches - {d})
    case LoseDispatch(d) => s.(dispatches := s.dispatches - {d})
    case StartJob(id) => s.(jobs := s.jobs[id := s.jobs[id].(attempts := s.jobs[id].attempts + 1, exec := Some(Begin))])
    case Read(id) => SetExec(s, id, Some(AfterRead(s.db, s.jobs[id].payload)))
    case FailMismatch(id, at) => SetExec(s.(db := Fail(s.db, id, s.jobs[id].id, MISMATCH, at)), id, Some(Returned))
    case Claim(id, at) =>
      var startedAt := s.jobs[id].exec.value.startedAt;
      var (db', claimed) := ClaimForExecution(s.db, id, s.jobs[id].id, if startedAt.Some? then startedAt.value else at);
      SetExec(s.(db := db'), id, Some(if claimed then Working else Returned))
    case Progress(id, stage, at) => s.(db := UpdateProgress(s.db, id, s.jobs[id].id, stage, at))
    case Decide(id, outcome) => SetExec(s, id, Some(AfterWork(s.jobs[id], outcome)))
    case Retry(id, at) => SetExec(s.(db := MarkRetryPending(s.db, id, s.jobs[id].id, s.jobs[id].exec.value.summary, at)), id, Some(Threw))
    case GiveUp(id, at) => SetExec(s.(db := Fail(s.db, id, s.jobs[id].id, s.jobs[id].exec.value.summary, at)), id,
      Some(Returned))
    case ReportScoring(id, at) =>
      SetExec(s.(db := UpdateProgress(s.db, id, s.jobs[id].id, Scoring, at)), id,
        Some(Completing(s.jobs[id].exec.value.report)))
    case Finish(id, at) => SetExec(s.(db := Complete(s.db, id, s.jobs[id].id, s.jobs[id].exec.value.report, at)), id,
      Some(Returned))
    case Return(id) => s.(jobs := s.jobs - {id})
    case Throw(id) => SetExec(s, id, None)
    case CrashWorker(id) => SetExec(s, id, None)
    case Sweep(chosen, _) => s.(db := Purge(s.db, chosen))
  }

  /** A step that is not enabled does nothing. */
  function Next(s: System, a: Action): System {
    if Enabled(s, a) then Effect(s, a) else s
  }

  function After(s: System, trace: seq<Action>): System
    decreases |trace|
  {
    if trace == [] then s else After(Next(s, trace[0]), trace[1..])
  }

  lemma {:induction false} AfterAppend(s: System, first: seq<Action>, second: seq<Action>)
    ensures After(s, first + second) == After(After(s, first), second)
    decreases |first|
  {
    if first == [] { assert first + second == second; }
    else {
      assert (first + second)[1..] == first[1..] + second;
      AfterAppend(Next(s, first[0]), first[1..], second);
    }
  }
}
