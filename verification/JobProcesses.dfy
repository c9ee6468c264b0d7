/** The programs that run the job protocol: the worker's attempt, the delivery dispatcher with its
    pump, the submitter and the reader. They share one cluster; at every await, other processes may
    take any steps. Each program is proved to perform only steps of `JobProtocolModel`, so what its
    runs keep (`JobProtocolSafety`) holds of it. */
module JobProcesses {
  import opened Text
  import opened JobProtocolModel
  import opened JobProtocolSafety
  import opened JobProtocolProgress
  import opened AnalysisRepositories

  /** Not a step of the attempt that runs under this id, nor its crash. */
  predicate Foreign(id: Id, a: Action) {
    || Focus(a) != Some(id)
    || a.Submit? || a.Enqueue? || a.FinishDispatch? || a.AbandonDispatch? || a.LoseDispatch? || a.StartJob?
  }

  lemma ForeignLeavesTheJob(s: System, a: Action, id: Id)
    requires Foreign(id, a) && id in s.jobs && s.jobs[id].exec.Some?
    ensures id in Next(s, a).jobs && Next(s, a).jobs[id] == s.jobs[id]
  {
    hide Parses;
  }

  predicate Unfinished(db: Db, id: Id) {
    id in db.analyses && !Terminal(db.analyses[id].status)
  }

  /** Nobody else touches the row of an attempt that is under way. */
  lemma ForeignLeavesTheRow(s: System, a: Action, id: Id)
    requires Inv(s) && Foreign(id, a) && id in s.jobs && s.jobs[id].exec.Some? && Unfinished(s.db, id)
    ensures id in Next(s, a).db.analyses && Next(s, a).db.analyses[id] == s.db.analyses[id]
  {
    hide Parses;
    assert IdOk(s, id);
    if Enabled(s, a) && Focus(a).Some? && Focus(a) != Some(id) { OthersUnchanged(s, a, id); }
  }

  lemma HistoryGrows(s: System, history: seq<Action>, a: Action)
    ensures After(s, history + [a]) == Next(After(s, history), a)
  {
    AfterAppend(s, history, [a]);
    assert After(After(s, history), [a]) == Next(After(s, history), a);
  }

  lemma HistoryIsSafe(s: System, history: seq<Action>)
    requires s == After(START, history)
    ensures Inv(s)
  {
    StartHolds();
    RunKeeps(START, history);
  }

  class Cluster {
    const repository: AnalysisRepository
    var jobs: map<Id, Job>
    var nextJob: nat
    var dispatches: set<Dispatch>
    var issued: set<Id>
    ghost var history: seq<Action>

    constructor ()
      ensures Valid() && history == [] && fresh(repository)
    {
      repository := new AnalysisRepository();
      jobs, nextJob, dispatches, issued, history := map[], 0, {}, {}, [];
    }

    function State(): System
      reads this, repository
    {
      System(repository.Tables(), jobs, nextJob, dispatches, issued)
    }

    /** Everything that happened so far was a step of the protocol. */
    ghost predicate Valid()
      reads this, repository
    {
      State() == After(START, history)
    }

    /** The program has just performed the step `a`. */
    ghost method Record(a: Action)
      requires State() == Next(After(START, history), a)
      modifies this`history
      ensures Valid() && history == old(history) + [a]
    {
      HistoryGrows(START, history, a);
      history := history + [a];
    }

    /** Where the attempt under `id` now stands. */
    method Reach(id: Id, pc: Pc)
      requires id in jobs
      modifies this`jobs
      ensures jobs == old(jobs)[id := old(jobs)[id].(exec := Some(pc))]
    {
      jobs := jobs[id := jobs[id].(exec := Some(pc))];
    }

    method Perform(a: Action)
      requires Valid()
      modifies this, repository
      ensures Valid() && history == old(history) + [a]
      ensures State() == Next(old(State()), a)
    {
      hide Next, After;
      ghost var before := State();
      var s := Next(State(), a);
      repository.analyses, repository.reports, repository.deliveries := s.db.analyses, s.db.reports, s.db.deliveries;
      jobs, nextJob, dispatches, issued := s.jobs, s.nextJob, s.dispatches, s.issued;
      assert State() == s;
      Record(a);
    }

    /** An await of the attempt under `id`: everyone else may move. */
    method Await(id: Id, others: seq<Action>)
      requires Valid() && id in jobs && jobs[id].exec.Some?
      requires forall a :: a in others ==> Foreign(id, a)
      modifies this, repository
      ensures Valid() && history == old(history) + others
      ensures id in jobs && jobs[id] == old(jobs)[id]
      ensures Unfinished(old(State()).db, id) ==>
        id in State().db.analyses && State().db.analyses[id] == old(State()).db.analyses[id]
    {
      hide Next, After, Foreign, Inv;
      var i := 0;
      while i < |others|
        invariant 0 <= i <= |others|
        invariant Valid() && history == old(history) + others[..i]
        invariant id in jobs && jobs[id] == old(jobs)[id]
        invariant Unfinished(old(State()).db, id) ==>
          id in State().db.analyses && State().db.analyses[id] == old(State()).db.analyses[id]
      {
        ForeignLeavesTheJob(State(), others[i], id);
        HistoryIsSafe(State(), history);
        if Unfinished(old(State()).db, id) { ForeignLeavesTheRow(State(), others[i], id); }
        Perform(others[i]);
        assert others[..i + 1] == others[..i] + [others[i]];
        i := i + 1;
      }
      assert others[..i] == others;
    }

    /** An await of any other process. */
    method Pause(others: seq<Action>)
      requires Valid()
      modifies this, repository
      ensures Valid() && history == old(history) + others
      ensures State() == After(old(State()), others)
    {
      hide Next;
      var i := 0;
      while i < |others|
        invariant 0 <= i <= |others|
        invariant Valid() && history == old(history) + others[..i]
        invariant State() == After(old(State()), others[..i])
      {
        HistoryGrows(old(State()), others[..i], others[i]);
        Perform(others[i]);
        assert others[..i + 1] == others[..i] + [others[i]];
        i := i + 1;
      }
      assert others[..i] == others;
    }
  }

  // ----- the worker's attempt -----

  datatype AnalyzerAnswer = Answered(report: Report) | Declined(summary: FailureSummary) | Raised | LostConnection

  /** What one call of the analyzer does: the stages it reports, each with its time, and its answer. */
  datatype AnalyzerRun = AnalyzerRun(stages: seq<(Stage, nat)>, answer: AnalyzerAnswer)

  /** The guards of the protocol, as an attempt at position `pc` with number `job` sees them. */
  predicate Attempt(s: System, id: Id, job: Job, pc: Pc) {
    id in s.jobs && s.jobs[id] == job.(exec := Some(pc))
  }

  // ----- what an attempt has to make of its row -----

  /** The analysis belongs to somebody whose connection it needs, and there is none. */
  predicate Disconnected(row: Analysis, canConnect: bool) {
    (row.owner.Some? || row.connection.Some?) && !(row.owner.Some? && row.connection.Some? && canConnect)
  }

  datatype Verdict = Done(report: Report) | Trouble(summary: FailureSummary, again: bool)

  /** What the run of the analyzer and the abort signal call for. */
  function VerdictOf(row: Analysis, canConnect: bool, interrupted: bool, run: AnalyzerRun): Verdict {
    if interrupted then Trouble(INTERRUPTED, true)
    else if Disconnected(row, canConnect) then Trouble(CONNECTION_UNAVAILABLE, false)
    else match run.answer
      case Answered(report) => Done(report)
      case Declined(summary) => Trouble(summary, summary.retryable)
      case Raised => Trouble(UNEXPECTED, true)
      case LostConnection => Trouble(CONNECTION_UNAVAILABLE, false)
  }

  /** The input of the analysis and its retention stay as they were. */
  predicate SameAnalysis(before: Analysis, after: Analysis) {
    && after.url == before.url && after.ref == before.ref && after.owner == before.owner
    && after.connection == before.connection && after.createdAt == before.createdAt
    && after.retentionExpiresAt == before.retentionExpiresAt
  }

  /** A finished row that is still there is as it was. */
  predicate FinishedStays(before: Db, after: Db, id: Id) {
    id in before.analyses && !Unfinished(before, id) && id in after.analyses ==> after.analyses[id] == before.analyses[id]
  }

  predicate RowKept(before: Db, after: Db, id: Id) {
    id in before.analyses && id in after.analyses && SameAnalysis(before.analyses[id], after.analyses[id])
  }

  /** The stage shown once an attempt has let go of its analysis. */
  function StageAt(status: Status): Stage {
    match status
    case Completed => StageCompleted
    case CompletedWithLimitations => StageCompletedWithLimitations
    case Failed => StageFailed
    case _ => StageQueued
  }

  /** The row is released with this status and its stage, failure and report. */
  predicate Released(before: Db, after: Db, id: Id, status: Status, failure: Option<FailureSummary>,
      report: Option<Report>)
  {
    && RowKept(before, after, id)
    && after.analyses[id].status == status && after.analyses[id].stage == StageAt(status)
    && after.analyses[id].activeJob == None
    && after.analyses[id].failure == failure
    && JobProtocolSafety.Lookup(after.reports, id) == report
  }

  /** A report is stored, and a failure recorded: for another attempt, when that may help and one is
      left, or for good. */
  predicate SettledAs(before: Db, after: Db, id: Id, verdict: Verdict, attempts: nat, threw: bool) {
    match verdict
    case Done(report) =>
      var limited := report.limitations > 0 || report.partialFailures > 0;
      && !threw
      && Released(before, after, id, if limited then CompletedWithLimitations else Completed, None, Some(report))
    case Trouble(summary, again) =>
      && threw == (again && attempts < MAX_ATTEMPTS)
      && Released(before, after, id, if threw then Queued else Failed, Some(summary), None)
  }

  /** From the claim to the end an attempt holds its row, which has no report. */
  lemma AttemptHoldsItsRow(s: System, history: seq<Action>, id: Id)
    requires s == After(START, history) && At(s, id).Some?
    requires At(s, id).value in {Working} || At(s, id).value.Retrying? || At(s, id).value.Failing?
      || At(s, id).value.Reporting? || At(s, id).value.Completing?
    ensures Holds(s.db, id, s.jobs[id].id) && id !in s.db.reports
  {
    HistoryIsSafe(s, history);
    assert IdOk(s, id);
  }

  /** An unfinished analysis that its attempt has read can be claimed. */
  lemma AttemptMayClaim(s: System, history: seq<Action>, id: Id)
    requires s == After(START, history) && At(s, id).Some? && Unfinished(s.db, id)
    ensures MayClaim(s.db, id, s.jobs[id].id) && id !in s.db.reports
  {
    HistoryIsSafe(s, history);
    assert IdOk(s, id);
  }

  /** Its payload is the row's input. */
  lemma AttemptHasItsInput(s: System, history: seq<Action>, id: Id)
    requires s == After(START, history) && At(s, id).Some?
    ensures s.jobs[id].payload.id == id && Parses(s.jobs[id].payload)
    ensures id in s.db.analyses ==> s.jobs[id].payload == PayloadOf(id, s.db.analyses[id])
  {
    HistoryIsSafe(s, history);
    assert IdOk(s, id);
    MismatchIsUnreachable(history, id);
  }

  /** `executeRepositoryAnalysisJob`: `others(k)` is what everyone else does during the k-th await,
      `clock(k)` what the k-th reading of the time returns. An attempt that throws was not the last
      one and leaves its analysis queued; one that returns leaves it finished. An analysis that is
      unfinished at the start ends as the analyzer's run and the abort signal call for; a finished one
      stays as it is, unless retention deletes it. */
  method ExecuteRepositoryAnalysisJob(
      cluster: Cluster, payload: Payload, job: nat, attempts: nat,
      canConnect: bool, abortedAtStart: bool, aborted: bool, run: AnalyzerRun,
      others: nat -> seq<Action>, clock: nat -> nat)
    returns (threw: bool)
    requires cluster.Valid() && Attempt(cluster.State(), payload.id, Job(job, payload, attempts, Some(Begin)), Begin)
    requires forall k, a :: a in others(k) ==> Foreign(payload.id, a)
    modifies cluster, cluster.repository
    ensures cluster.Valid() && old(cluster.history) <= cluster.history
    ensures Attempt(cluster.State(), payload.id, Job(job, payload, attempts, Some(Begin)),
      if threw then Threw else Returned)
    ensures threw ==>
      Gone(cluster.State().db, payload.id) ||
      (attempts < MAX_ATTEMPTS && Claimable(cluster.State().db.analyses[payload.id]))
    ensures !threw ==> Gone(cluster.State().db, payload.id)
    ensures Unfinished(old(cluster.State()).db, payload.id) ==>
      SettledAs(old(cluster.State()).db, cluster.State().db, payload.id,
        VerdictOf(old(cluster.State()).db.analyses[payload.id], canConnect, abortedAtStart || aborted, run), attempts, threw)
    ensures FinishedStays(old(cluster.State()).db, cluster.State().db, payload.id)
  {
    hide SettledAs, Inv;
    ghost var before, history := cluster.State(), cluster.history;
    threw := RunAttempt(cluster, payload, job, attempts, canConnect, abortedAtStart, aborted, run, others, clock);
    AttemptsEndCleanly(cluster.history, payload.id);
    HistoryIsSafe(before, history);
    ghost var since := cluster.history[|history|..];
    assert cluster.history == history + since;
    AfterAppend(START, history, since);
    RunIsFinal(before, since, payload.id);
  }

  /** The branch taken after `findAnalysis`; the code must have arrived where the protocol says. */
  method Branch(cluster: Cluster, id: Id, pc: Pc)
    requires cluster.Valid() && At(cluster.State(), id) == Some(Begin)
    requires pc == AfterRead(cluster.State().db, cluster.jobs[id].payload)
    modifies cluster`jobs, cluster`history
    ensures cluster.Valid() && cluster.history == old(cluster.history) + [Read(id)]
    ensures cluster.jobs == old(cluster.jobs)[id := old(cluster.jobs)[id].(exec := Some(pc))]
  {
    hide After, AfterRead;
    cluster.Reach(id, pc);
    cluster.Record(Read(id));
  }

  /** The branch taken once the analyzer is done; the code must have arrived where the protocol says. */
  method Settle(cluster: Cluster, id: Id, ghost outcome: Outcome, pc: Pc)
    requires cluster.Valid() && At(cluster.State(), id) == Some(Working)
    requires pc == AfterWork(cluster.jobs[id], outcome)
    modifies cluster`jobs, cluster`history
    ensures cluster.Valid() && cluster.history == old(cluster.history) + [Decide(id, outcome)]
    ensures cluster.jobs == old(cluster.jobs)[id := old(cluster.jobs)[id].(exec := Some(pc))]
  {
    hide After, AfterWork;
    cluster.Reach(id, pc);
    cluster.Record(Decide(id, outcome));
  }

  method RunAttempt(
      cluster: Cluster, payload: Payload, job: nat, attempts: nat,
      canConnect: bool, abortedAtStart: bool, aborted: bool, run: AnalyzerRun,
      others: nat -> seq<Action>, clock: nat -> nat)
    returns (threw: bool)
    requires cluster.Valid()
    requires Attempt(cluster.State(), payload.id, Job(job, payload, attempts, Some(Begin)), Begin)
    requires forall k, a :: a in others(k) ==> Foreign(payload.id, a)
    modifies cluster, cluster.repository
    ensures cluster.Valid() && old(cluster.history) <= cluster.history
    ensures Attempt(cluster.State(), payload.id, Job(job, payload, attempts, Some(Begin)),
      if threw then Threw else Returned)
    ensures Unfinished(old(cluster.State()).db, payload.id) ==>
      SettledAs(old(cluster.State()).db, cluster.State().db, payload.id,
        VerdictOf(old(cluster.State()).db.analyses[payload.id], canConnect, abortedAtStart || aborted, run), attempts, threw)
  {
    hide After, Foreign, Parses, Next, Effect, Enabled, SettledAs;
    var id := payload.id;
    cluster.Await(id, others(0));
    ghost var read, history := cluster.State(), cluster.history;
    if !Parses(payload) {
      Branch(cluster, id, Threw);
      AttemptHasItsInput(read, history, id);
      return true;
    }
    var found := cluster.repository.FindAnalysis(id);
    if found == None {
      Branch(cluster, id, Threw);
      return true;
    }
    var existing := found.value;
    if existing.url != payload.url || existing.ref != payload.ref {
      Branch(cluster, id, Mismatched);
      RejectMismatch(cluster, payload, job, attempts, clock(1), others(1));
      AttemptHasItsInput(read, history, id);
      return false;
    }
    if Terminal(existing.status) {
      Branch(cluster, id, Returned);
      return false;
    }
    Branch(cluster, id, Claiming(existing.startedAt));
    var claimed := ClaimRow(cluster, payload, job, attempts, existing.startedAt, clock(1), others(1));
    if !claimed { return false; }
    ghost var working := cluster.State();
    threw := WorkAndSettle(cluster, payload, job, attempts, existing, canConnect, abortedAtStart, aborted, run, others,
      clock);
    if Unfinished(old(cluster.State()).db, id) {
      SettledFromTheRead(old(cluster.State()).db, working.db, cluster.State().db, id,
        VerdictOf(existing, canConnect, abortedAtStart || aborted, run), attempts, threw);
    }
  }

  lemma SettledFromTheRead(before: Db, middle: Db, after: Db, id: Id, verdict: Verdict, attempts: nat, threw: bool)
    requires RowKept(before, middle, id) && SettledAs(middle, after, id, verdict, attempts, threw)
    ensures SettledAs(before, after, id, verdict, attempts, threw)
  {
  }

  method RejectMismatch(cluster: Cluster, payload: Payload, job: nat, attempts: nat, at: nat, others: seq<Action>)
    requires cluster.Valid()
    requires Attempt(cluster.State(), payload.id, Job(job, payload, attempts, Some(Begin)), Mismatched)
    requires forall a :: a in others ==> Foreign(payload.id, a)
    modifies cluster, cluster.repository
    ensures cluster.Valid() && old(cluster.history) <= cluster.history
    ensures Attempt(cluster.State(), payload.id, Job(job, payload, attempts, Some(Begin)), Returned)
  {
    hide After, Foreign, Parses;
    cluster.Await(payload.id, others);
    cluster.repository.Fail(payload.id, job, MISMATCH, at);
    cluster.Reach(payload.id, Returned);
    cluster.Record(FailMismatch(payload.id, at));
  }

  method ClaimRow(cluster: Cluster, payload: Payload, job: nat, attempts: nat, startedAt: Option<nat>, at: nat,
      others: seq<Action>) returns (claimed: bool)
    requires cluster.Valid()
    requires Attempt(cluster.State(), payload.id, Job(job, payload, attempts, Some(Begin)), Claiming(startedAt))
    requires forall a :: a in others ==> Foreign(payload.id, a)
    modifies cluster, cluster.repository
    ensures cluster.Valid() && old(cluster.history) <= cluster.history
    ensures Attempt(cluster.State(), payload.id, Job(job, payload, attempts, Some(Begin)),
      if claimed then Working else Returned)
    ensures Unfinished(old(cluster.State()).db, payload.id) ==>
      claimed && RowKept(old(cluster.State()).db, cluster.State().db, payload.id)
  {
    hide After, Foreign, Parses;
    cluster.Await(payload.id, others);
    if Unfinished(cluster.State().db, payload.id) { AttemptMayClaim(cluster.State(), cluster.history, payload.id); }
    claimed := cluster.repository.ClaimForExecution(payload.id, job, if startedAt.Some? then startedAt.value else at);
    cluster.Reach(payload.id, if claimed then Working else Returned);
    cluster.Record(Claim(payload.id, at));
  }

  /** From the successful claim on: the `try`, then its `catch` or what follows it. */
  method WorkAndSettle(
      cluster: Cluster, payload: Payload, job: nat, attempts: nat, existing: Analysis,
      canConnect: bool, abortedAtStart: bool, aborted: bool, run: AnalyzerRun,
      others: nat -> seq<Action>, clock: nat -> nat)
    returns (threw: bool)
    requires cluster.Valid()
    requires Attempt(cluster.State(), payload.id, Job(job, payload, attempts, Some(Begin)), Working)
    requires forall k, a :: a in others(k) ==> Foreign(payload.id, a)
    modifies cluster, cluster.repository
    ensures cluster.Valid() && old(cluster.history) <= cluster.history
    ensures Attempt(cluster.State(), payload.id, Job(job, payload, attempts, Some(Begin)),
      if threw then Threw else Returned)
    ensures SettledAs(old(cluster.State()).db, cluster.State().db, payload.id,
      VerdictOf(existing, canConnect, abortedAtStart || aborted, run), attempts, threw)
  {
    hide After, Foreign, Parses, Next, Effect, Enabled, SettledAs, Holds;
    AttemptHoldsItsRow(cluster.State(), cluster.history, payload.id);
    ghost var before := cluster.State().db;
    assert RowKept(before, before, payload.id) by { HeldRowIsUnfinished(before, payload.id, job); }
    var answer := Raised;
    if !abortedAtStart {
      if (existing.owner.Some? || existing.connection.Some?) && (existing.connection == None || existing.owner == None || !canConnect) {
        answer := LostConnection;
      } else {
        ReportStages(cluster, payload, job, attempts, run.stages, others);
        AttemptHoldsItsRow(cluster.State(), cluster.history, payload.id);
        HeldRowIsUnfinished(cluster.State().db, payload.id, job);
        cluster.Await(payload.id, others(2));
        answer := run.answer;
      }
    }
    var interrupted := aborted || abortedAtStart;
    ghost var middle := cluster.State().db;
    assert RowKept(before, middle, payload.id);
    if interrupted || answer.Raised? || answer.LostConnection? {
      threw := CatchError(cluster, payload, job, attempts, interrupted, answer.LostConnection?, others, clock);
    } else {
      threw := SettleAnswer(cluster, payload, job, attempts, answer, others, clock);
    }
    SettledFromTheRead(before, middle, cluster.State().db, payload.id, VerdictOf(existing, canConnect, interrupted, run), attempts, threw);
  }

  lemma HeldRowIsUnfinished(db: Db, id: Id, job: nat)
    requires Holds(db, id, job)
    ensures Unfinished(db, id)
  {
  }

  method CatchError(
      cluster: Cluster, payload: Payload, job: nat, attempts: nat, interrupted: bool, connectionError: bool,
      others: nat -> seq<Action>, clock: nat -> nat)
    returns (threw: bool)
    requires cluster.Valid()
    requires Attempt(cluster.State(), payload.id, Job(job, payload, attempts, Some(Begin)), Working)
    requires forall k, a :: a in others(k) ==> Foreign(payload.id, a)
    modifies cluster, cluster.repository
    ensures cluster.Valid() && old(cluster.history) <= cluster.history
    ensures Attempt(cluster.State(), payload.id, Job(job, payload, attempts, Some(Begin)),
      if threw then Threw else Returned)
    ensures SettledAs(old(cluster.State()).db, cluster.State().db, payload.id,
      if interrupted then Trouble(INTERRUPTED, true)
      else if connectionError then Trouble(CONNECTION_UNAVAILABLE, false)
      else Trouble(UNEXPECTED, true), attempts, threw)
  {
    hide After, Foreign, Parses, Next, Effect, Enabled, Released;
    if !interrupted && connectionError {
      Settle(cluster, payload.id, ConnectionUnavailable, Failing(CONNECTION_UNAVAILABLE));
      FailAndReturn(cluster, payload, job, attempts, CONNECTION_UNAVAILABLE, clock(2), others(3));
      return false;
    }
    var summary := if interrupted then INTERRUPTED else UNEXPECTED;
    ghost var outcome := if interrupted then Interrupted else Crashed;
    if attempts >= MAX_ATTEMPTS {
      Settle(cluster, payload.id, outcome, Failing(summary));
      FailAndReturn(cluster, payload, job, attempts, summary, clock(2), others(3));
      return false;
    }
    Settle(cluster, payload.id, outcome, Retrying(summary));
    RequeueAndThrow(cluster, payload, job, attempts, summary, clock(2), others(3));
    threw := true;
  }

  method SettleAnswer(
      cluster: Cluster, payload: Payload, job: nat, attempts: nat, answer: AnalyzerAnswer,
      others: nat -> seq<Action>, clock: nat -> nat)
    returns (threw: bool)
    requires answer.Answered? || answer.Declined?
    requires cluster.Valid()
    requires Attempt(cluster.State(), payload.id, Job(job, payload, attempts, Some(Begin)), Working)
    requires forall k, a :: a in others(k) ==> Foreign(payload.id, a)
    modifies cluster, cluster.repository
    ensures cluster.Valid() && old(cluster.history) <= cluster.history
    ensures Attempt(cluster.State(), payload.id, Job(job, payload, attempts, Some(Begin)),
      if threw then Threw else Returned)
    ensures SettledAs(old(cluster.State()).db, cluster.State().db, payload.id,
      if answer.Answered? then Done(answer.report) else Trouble(answer.summary, answer.summary.retryable),
      attempts, threw)
  {
    hide After, Foreign, Parses, Next, Effect, Enabled, Released;
    if answer.Answered? {
      Settle(cluster, payload.id, Success(answer.report), Reporting(answer.report));
      ghost var before := cluster.State().db;
      ReportScoringStage(cluster, payload, job, attempts, answer.report, clock(3), others(3));
      ghost var middle := cluster.State().db;
      SaveReport(cluster, payload, job, attempts, answer.report, clock(4), others(4));
      SettledFromTheRead(before, middle, cluster.State().db, payload.id, Done(answer.report), attempts, false);
      return false;
    }
    if answer.summary.retryable && attempts < MAX_ATTEMPTS {
      Settle(cluster, payload.id, ProviderError(answer.summary), Retrying(answer.summary));
      RequeueAndThrow(cluster, payload, job, attempts, answer.summary, clock(2), others(3));
      return true;
    }
    Settle(cluster, payload.id, ProviderError(answer.summary), Failing(answer.summary));
    FailAndReturn(cluster, payload, job, attempts, answer.summary, clock(2), others(3));
    threw := false;
  }

  method ReportScoringStage(cluster: Cluster, payload: Payload, job: nat, attempts: nat, report: Report, at: nat,
      others: seq<Action>)
    requires cluster.Valid()
    requires Attempt(cluster.State(), payload.id, Job(job, payload, attempts, Some(Begin)), Reporting(report))
    requires forall a :: a in others ==> Foreign(payload.id, a)
    modifies cluster, cluster.repository
    ensures cluster.Valid() && old(cluster.history) <= cluster.history
    ensures Attempt(cluster.State(), payload.id, Job(job, payload, attempts, Some(Begin)), Completing(report))
    ensures RowKept(old(cluster.State()).db, cluster.State().db, payload.id)
  {
    hide After, Foreign, Parses;
    AttemptHoldsItsRow(cluster.State(), cluster.history, payload.id);
    cluster.Await(payload.id, others);
    AttemptHoldsItsRow(cluster.State(), cluster.history, payload.id);
    cluster.repository.UpdateProgress(payload.id, job, Scoring, at);
    cluster.Reach(payload.id, Completing(report));
    cluster.Record(ReportScoring(payload.id, at));
  }

  method SaveReport(cluster: Cluster, payload: Payload, job: nat, attempts: nat, report: Report, at: nat,
      others: seq<Action>)
    requires cluster.Valid()
    requires Attempt(cluster.State(), payload.id, Job(job, payload, attempts, Some(Begin)), Completing(report))
    requires forall a :: a in others ==> Foreign(payload.id, a)
    modifies cluster, cluster.repository
    ensures cluster.Valid() && old(cluster.history) <= cluster.history
    ensures Attempt(cluster.State(), payload.id, Job(job, payload, attempts, Some(Begin)), Returned)
    ensures Released(old(cluster.State()).db, cluster.State().db, payload.id,
      if report.limitations > 0 || report.partialFailures > 0 then CompletedWithLimitations else Completed, None, Some(report))
  {
    hide After, Foreign, Parses;
    AttemptHoldsItsRow(cluster.State(), cluster.history, payload.id);
    cluster.Await(payload.id, others);
    AttemptHoldsItsRow(cluster.State(), cluster.history, payload.id);
    var limited := report.limitations > 0 || report.partialFailures > 0;
    cluster.repository.Complete(payload.id, job, report, at, limited);
    cluster.Reach(payload.id, Returned);
    cluster.Record(Finish(payload.id, at));
  }

  /** The analyzer's progress callbacks. */
  method ReportStages(cluster: Cluster, payload: Payload, job: nat, attempts: nat, stages: seq<(Stage, nat)>,
      others: nat -> seq<Action>)
    requires cluster.Valid()
    requires Attempt(cluster.State(), payload.id, Job(job, payload, attempts, Some(Begin)), Working)
    requires forall k, a :: a in others(k) ==> Foreign(payload.id, a)
    modifies cluster, cluster.repository
    ensures cluster.Valid() && old(cluster.history) <= cluster.history
    ensures Attempt(cluster.State(), payload.id, Job(job, payload, attempts, Some(Begin)), Working)
    ensures RowKept(old(cluster.State()).db, cluster.State().db, payload.id)
  {
    hide After, Foreign, Parses;
    var id := payload.id;
    AttemptHoldsItsRow(cluster.State(), cluster.history, id);
    var i := 0;
    while i < |stages|
      invariant cluster.Valid() && old(cluster.history) <= cluster.history
      invariant Attempt(cluster.State(), id, Job(job, payload, attempts, Some(Begin)), Working)
      invariant RowKept(old(cluster.State()).db, cluster.State().db, id)
    {
      AttemptHoldsItsRow(cluster.State(), cluster.history, id);
      cluster.Await(id, others(5 + i));
      cluster.repository.UpdateProgress(id, job, stages[i].0, stages[i].1);
      cluster.Record(Progress(id, stages[i].0, stages[i].1));
      i := i + 1;
    }
  }

  method FailAndReturn(cluster: Cluster, payload: Payload, job: nat, attempts: nat, summary: FailureSummary, at: nat,
      others: seq<Action>)
    requires cluster.Valid()
    requires Attempt(cluster.State(), payload.id, Job(job, payload, attempts, Some(Begin)), Failing(summary))
    requires forall a :: a in others ==> Foreign(payload.id, a)
    modifies cluster, cluster.repository
    ensures cluster.Valid() && old(cluster.history) <= cluster.history
    ensures Attempt(cluster.State(), payload.id, Job(job, payload, attempts, Some(Begin)), Returned)
    ensures Released(old(cluster.State()).db, cluster.State().db, payload.id, Failed, Some(summary), None)
  {
    hide After, Foreign, Parses;
    AttemptHoldsItsRow(cluster.State(), cluster.history, payload.id);
    cluster.Await(payload.id, others);
    AttemptHoldsItsRow(cluster.State(), cluster.history, payload.id);
    cluster.repository.Fail(payload.id, job, summary, at);
    cluster.Reach(payload.id, Returned);
    cluster.Record(GiveUp(payload.id, at));
  }

  method RequeueAndThrow(cluster: Cluster, payload: Payload, job: nat, attempts: nat, summary: FailureSummary, at: nat,
      others: seq<Action>)
    requires cluster.Valid()
    requires Attempt(cluster.State(), payload.id, Job(job, payload, attempts, Some(Begin)), Retrying(summary))
    requires forall a :: a in others ==> Foreign(payload.id, a)
    modifies cluster, cluster.repository
    ensures cluster.Valid() && old(cluster.history) <= cluster.history
    ensures Attempt(cluster.State(), payload.id, Job(job, payload, attempts, Some(Begin)), Threw)
    ensures Released(old(cluster.State()).db, cluster.State().db, payload.id, Queued, Some(summary), None)
  {
    hide After, Foreign, Parses;
    AttemptHoldsItsRow(cluster.State(), cluster.history, payload.id);
    cluster.Await(payload.id, others);
    AttemptHoldsItsRow(cluster.State(), cluster.history, payload.id);
    cluster.repository.MarkRetryPending(payload.id, job, summary, at);
    cluster.Reach(payload.id, Threw);
    cluster.Record(Retry(payload.id, at));
  }

  // ----- the submitter and the reader -----

  /** `createRepositoryAnalysisJob`. The dispatch it starts without waiting is one more of the
      dispatchers that may run from here on. An accepted submission can always finish. */
  method CreateRepositoryAnalysisJob(cluster: Cluster, input: Submission) returns (accepted: bool)
    requires cluster.Valid()
    requires Enabled(cluster.State(), Submit(input, true))
    modifies cluster, cluster.repository
    ensures cluster.Valid() && cluster.history == old(cluster.history) + [Submit(input, true)]
    ensures accepted <==>
      input.id in old(cluster.State()).db.analyses ==> SameInput(old(cluster.State()).db.analyses[input.id], input)
    ensures accepted ==>
      input.id in cluster.State().db.analyses && SameInput(cluster.State().db.analyses[input.id], input)
    ensures accepted ==> exists rest :: Finished(After(cluster.State(), rest), input.id)
    ensures !accepted ==> cluster.State().db == old(cluster.State().db)
  {
    hide After, Parses;
    accepted := cluster.repository.CreateQueuedRepositoryAnalysisWithDelivery(input);
    cluster.issued := cluster.issued + {input.id};
    cluster.Record(Submit(input, true));
    if accepted {
      StartHolds();
      RunKeeps(START, cluster.history);
      ghost var rest := CanFinish(cluster.State(), input.id);
      assert Finished(After(cluster.State(), rest), input.id);
    }
  }

  /** `readRepositoryAnalysis`: a completed analysis is never answered without its report, whatever
      happens before the second and the third read. */
  method ReadRepositoryAnalysis(cluster: Cluster, id: Id, owner: Option<string>, between: seq<Action>,
      later: seq<Action>)
    returns (answer: Option<Snapshot>)
    requires cluster.Valid()
    modifies cluster, cluster.repository
    ensures cluster.Valid()
    ensures answer.Some? ==>
      var db := old(cluster.State()).db;
      && id in db.analyses && !Refused(db.analyses[id], owner) && answer.value.analysis == db.analyses[id]
      && answer.value.report == JobProtocolSafety.Lookup(db.reports, id)
      && (HasReport(db.analyses[id].status) <==> answer.value.report.Some?)
    ensures var db := old(cluster.State()).db;
      answer == None && id in db.analyses && !Refused(db.analyses[id], owner) ==> id !in cluster.State().db.analyses
  {
    hide After, Next;
    ghost var s := cluster.State();
    StartHolds();
    RunKeeps(START, cluster.history);
    assert IdOk(s, id);
    var analysis := cluster.repository.FindAnalysis(id);
    if analysis == None
      || (analysis.value.owner.Some? && analysis.value.owner != owner)
      || (analysis.value.connection.Some? && analysis.value.owner == None) {
      return None;
    }
    if !analysis.value.status.Completed? && !analysis.value.status.CompletedWithLimitations? {
      ReaderNeverMissesAReport(s, between, later, id, owner);
      return Some(Snapshot(analysis.value, None));
    }
    cluster.Pause(between);
    var report := cluster.repository.FindReport(id);
    if report.Some? {
      ReaderNeverMissesAReport(s, between, later, id, owner);
      return Some(Snapshot(analysis.value, report));
    }
    cluster.Pause(later);
    var refreshed := cluster.repository.FindAnalysis(id);
    answer := if refreshed == None || (refreshed.value.owner.Some? && refreshed.value.owner != owner)
      then None else Some(Snapshot(refreshed.value, None));
    ReaderNeverMissesAReport(s, between, later, id, owner);
  }

  // ----- the dispatcher -----

  const DELIVERY_BATCH_SIZE: nat := 25
  const DELIVERY_LEASE_MS: nat := 60_000
  const DELIVERY_RETRY_BASE_MS: nat := 1_000
  const DELIVERY_RETRY_MAX_MS: nat := 60_000

  function Doubled(base: nat, times: nat): nat {
    if times == 0 then base else 2 * Doubled(base, times - 1)
  }

  function NextDeliveryAttempt(attempts: nat, now: nat): nat {
    var delay := Doubled(DELIVERY_RETRY_BASE_MS, if attempts == 0 then 0 else attempts - 1);
    now + if delay < DELIVERY_RETRY_MAX_MS then delay else DELIVERY_RETRY_MAX_MS
  }

  /** The back-off doubles with every attempt until it reaches a minute, and stays there. */
  lemma {:induction false} BackOffDoublesUpToAMinute(attempts: nat, now: nat)
    ensures now + DELIVERY_RETRY_BASE_MS <= NextDeliveryAttempt(attempts, now) <= now + DELIVERY_RETRY_MAX_MS
    ensures attempts >= 1 ==>
      var delay := NextDeliveryAttempt(attempts, now) - now;
      var next := NextDeliveryAttempt(attempts + 1, now) - now;
      next == if 2 * delay < DELIVERY_RETRY_MAX_MS then 2 * delay else DELIVERY_RETRY_MAX_MS
    ensures attempts >= 7 ==> NextDeliveryAttempt(attempts, now) == now + DELIVERY_RETRY_MAX_MS
  {
    if attempts > 1 { BackOffDoublesUpToAMinute(attempts - 1, now); }
    if attempts == 7 { assert Doubled(DELIVERY_RETRY_BASE_MS, 6) == 2 * Doubled(DELIVERY_RETRY_BASE_MS, 5); }
  }

  /** What became of one call to the queue: accepted, accepted but reported as failed, or refused. */
  datatype QueueAnswer = Accepted | AcceptedUnseen | Rejected

  /** A step on this very dispatch, which only the dispatcher that claimed it takes. */
  predicate Concerns(a: Action, d: Dispatch) {
    match a
    case Enqueue(other, _) => other.(enqueued := false) == d
    case FinishDispatch(other, _) => other.(enqueued := false) == d
    case AbandonDispatch(other, _, _) => other.(enqueued := false) == d
    case LoseDispatch(other) => other.(enqueued := false) == d
    case _ => false
  }

  lemma StepLeavesTheDispatch(s: System, a: Action, held: Dispatch)
    requires held in s.dispatches && !Concerns(a, held.(enqueued := false))
    ensures held in Next(s, a).dispatches
  {
    hide Parses;
    if a.Enqueue? || a.FinishDispatch? || a.AbandonDispatch? || a.LoseDispatch? { assert a.d != held; }
  }

  lemma {:induction false} OthersLeaveTheDispatch(s: System, others: seq<Action>, d: Dispatch, held: Dispatch)
    requires held in s.dispatches && held.(enqueued := false) == d
    requires forall a :: a in others ==> !Concerns(a, d)
    ensures held in After(s, others).dispatches
    decreases |others|
  {
    hide Next, Concerns;
    if others != [] {
      StepLeavesTheDispatch(s, others[0], held);
      OthersLeaveTheDispatch(Next(s, others[0]), others[1..], d, held);
    }
  }

  function QueueSteps(d: Dispatch, answer: QueueAnswer): seq<Action> {
    if answer.Rejected? then [] else [Enqueue(d, answer.Accepted?)]
  }

  /** The queue call of `dispatchDelivery`. */
  method EnqueueDispatch(cluster: Cluster, d: Dispatch, answer: QueueAnswer)
    requires cluster.Valid() && d in cluster.dispatches && !d.enqueued
    modifies cluster
    ensures cluster.Valid() && old(cluster.history) <= cluster.history
    ensures (if answer.Accepted? then d.(enqueued := true) else d) in cluster.dispatches
    ensures !answer.Rejected? ==>
      cluster.jobs == (if d.payload.id in old(cluster.jobs) then old(cluster.jobs)
        else old(cluster.jobs)[d.payload.id := Job(old(cluster.nextJob), d.payload, 0, None)])
    ensures answer.Rejected? ==> cluster.State() == old(cluster.State())
    ensures cluster.history == old(cluster.history) + QueueSteps(d, answer)
  {
    hide After, Parses;
    if answer.Rejected? { return; }
    if d.payload.id !in cluster.jobs {
      cluster.jobs := cluster.jobs[d.payload.id := Job(cluster.nextJob, d.payload, 0, None)];
      cluster.nextJob := cluster.nextJob + 1;
    }
    if answer.Accepted? {
      cluster.dispatches := cluster.dispatches - {d} + {d.(enqueued := true)};
    }
    cluster.Record(Enqueue(d, answer.Accepted?));
  }

  /** `dispatchDelivery`. It marks the delivery only after the queue confirmed the job, so when it
      does, the analysis has its job or is already finished; otherwise it gives the delivery back
      with a back-off, unless its lease was lost meanwhile. */
  method DispatchDelivery(cluster: Cluster, d: Dispatch, answer: QueueAnswer, before: seq<Action>,
      between: seq<Action>, clock: nat)
    requires cluster.Valid() && d in cluster.dispatches && !d.enqueued
    requires forall a :: a in before + between ==> !Concerns(a, d)
    modifies cluster, cluster.repository
    ensures cluster.Valid() && old(cluster.history) <= cluster.history
    ensures answer.Accepted? ==>
      Gone(cluster.State().db, d.payload.id) || d.payload.id in cluster.jobs
    ensures var last := if answer.Accepted? then FinishDispatch(d.(enqueued := true), clock)
        else AbandonDispatch(d, NextDeliveryAttempt(d.attempts, clock), clock);
      && (exists s: System :: Enabled(s, last) && cluster.State() == Effect(s, last))
      && cluster.history == old(cluster.history) + before + QueueSteps(d, answer) + between + [last]
  {
    hide After, Concerns, Effect, Parses, NextDeliveryAttempt;
    OthersLeaveTheDispatch(cluster.State(), before, d, d);
    cluster.Pause(before);
    EnqueueDispatch(cluster, d, answer);
    OthersLeaveTheDispatch(cluster.State(), between, d, if answer.Accepted? then d.(enqueued := true) else d);
    cluster.Pause(between);
    ghost var s := cluster.State();
    if answer.Accepted? {
      StartHolds();
      RunKeeps(START, cluster.history);
      assert DispatchOk(s, d.(enqueued := true));
      FinishDelivery(cluster, d.(enqueued := true), clock);
      assert Enabled(s, FinishDispatch(d.(enqueued := true), clock));
    } else {
      AbandonDelivery(cluster, d, NextDeliveryAttempt(d.attempts, clock), clock);
      assert Enabled(s, AbandonDispatch(d, NextDeliveryAttempt(d.attempts, clock), clock));
    }
  }

  method FinishDelivery(cluster: Cluster, d: Dispatch, at: nat)
    requires cluster.Valid() && Enabled(cluster.State(), FinishDispatch(d, at))
    modifies cluster, cluster.repository
    ensures cluster.Valid() && cluster.history == old(cluster.history) + [FinishDispatch(d, at)]
    ensures cluster.State() == Effect(old(cluster.State()), FinishDispatch(d, at))
    ensures cluster.jobs == old(cluster.jobs) && cluster.repository.analyses == old(cluster.repository.analyses)
  {
    hide After, Parses;
    cluster.repository.MarkRepositoryAnalysisDeliveryDelivered(d.payload.id, d.token, at);
    cluster.dispatches := cluster.dispatches - {d};
    cluster.Record(FinishDispatch(d, at));
  }

  method AbandonDelivery(cluster: Cluster, d: Dispatch, availableAt: nat, at: nat)
    requires cluster.Valid() && Enabled(cluster.State(), AbandonDispatch(d, availableAt, at))
    modifies cluster, cluster.repository
    ensures cluster.Valid() && cluster.history == old(cluster.history) + [AbandonDispatch(d, availableAt, at)]
    ensures cluster.State() == Effect(old(cluster.State()), AbandonDispatch(d, availableAt, at))
  {
    hide After, Parses;
    cluster.repository.RetryRepositoryAnalysisDelivery(d.payload.id, d.token, availableAt, at);
    cluster.dispatches := cluster.dispatches - {d};
    cluster.Record(AbandonDispatch(d, availableAt, at));
  }

  /** The claim of `dispatchReady`, with its minute of lease. */
  method ClaimBatch(cluster: Cluster, token: string, now: nat, locked: set<Id>)
    returns (rows: seq<Dispatch>, ghost chosen: set<Id>)
    requires cluster.Valid()
    modifies cluster, cluster.repository
    ensures cluster.Valid()
    ensures cluster.history == old(cluster.history) + [ClaimDeliveries(chosen, token, now, now + DELIVERY_LEASE_MS)]
    ensures var db := Backfill(old(cluster.State()).db);
      Oldest(AvailableTime(db), CandidateRows(db, now, locked), DELIVERY_BATCH_SIZE, chosen)
    ensures forall d :: d in rows <==> d in DispatchesFor(cluster.State().db, chosen, token)
    ensures forall d :: d in rows ==> d in cluster.dispatches && !d.enqueued && d.token == token
    ensures forall d :: d in rows ==>
      HoldsLease(cluster.State().db, d.payload.id, token) &&
      cluster.repository.deliveries[d.payload.id].leaseExpiresAt == Some(now + DELIVERY_LEASE_MS)
  {
    hide After, Parses, Oldest;
    var ok;
    ghost var before := cluster.State();
    ok, rows, chosen := cluster.repository.ClaimPendingRepositoryAnalysisDeliveries(DELIVERY_BATCH_SIZE, token, now,
      now + DELIVERY_LEASE_MS, locked);
    assert forall id :: id in chosen ==> IsCandidate(Backfill(before.db), now, id) by { OldestAreCandidates(Backfill(before.db), now, locked, chosen); }
    cluster.dispatches := cluster.dispatches + (set d | d in rows);
    assert cluster.dispatches == before.dispatches + DispatchesFor(cluster.State().db, chosen, token);
    cluster.Record(ClaimDeliveries(chosen, token, now, now + DELIVERY_LEASE_MS));
  }

  lemma OldestAreCandidates(db: Db, now: nat, locked: set<Id>, chosen: set<Id>)
    requires Oldest(AvailableTime(db), CandidateRows(db, now, locked), DELIVERY_BATCH_SIZE, chosen)
    ensures forall id :: id in chosen ==> IsCandidate(db, now, id)
  {
  }

  // ----- the pump -----

  /** `startRepositoryAnalysisDeliveryPump`: a timer that starts a dispatch, which re-arms the timer
      when it settles. At most one dispatch is in flight; until it is stopped the pump always has a
      dispatch in flight or its timer armed; once stopped it never starts another one. */
  class DeliveryPump {
    var stopped: bool
    var running: bool
    var armed: bool
    ghost var started: nat
    ghost var settled: nat

    ghost predicate Valid()
      reads this
    {
      && started == settled + (if running then 1 else 0)
      && (!stopped ==> (running <==> !armed))
      && (stopped ==> !armed)
    }

    constructor ()
      ensures Valid() && running && !stopped && started == 1
    {
      stopped, running, armed, started, settled := false, true, false, 1, 0;
    }

    method Schedule()
      modifies this`armed
      ensures armed == (old(armed) || !stopped)
    {
      if stopped { return; }
      armed := true;
    }

    method Run()
      modifies this`running, this`started
      ensures if stopped || old(running) then running == old(running) && started == old(started)
        else running && started == old(started) + 1
    {
      if stopped || running { return; }
      running := true;
      started := started + 1;
    }

    method TimerFires()
      requires Valid() && armed
      modifies this
      ensures Valid() && stopped == old(stopped)
      ensures running && started == old(started) + 1
    {
      armed := false;
      Run();
    }

    method DispatchSettles()
      requires Valid() && running
      modifies this
      ensures Valid() && !running && stopped == old(stopped) && settled == started == old(started)
      ensures armed <==> !stopped
    {
      running := false;
      settled := settled + 1;
      Schedule();
    }

    method Stop()
      requires Valid()
      modifies this`stopped, this`armed
      ensures Valid() && stopped && !armed
    {
      stopped := true;
      armed := false;
    }
  }
}
