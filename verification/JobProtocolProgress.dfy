/** Two consequences of the job protocol's invariant: no reachable state is stuck, and a reader that
    races with every other process never sees a completed analysis without its report. */
module JobProtocolProgress {
  import opened Text
  import opened JobProtocolModel
  import opened JobProtocolSafety

  // ----- no reachable state is stuck -----

  /** Neither a crash, nor a lost dispatch, nor a deletion. */
  predicate Orderly(a: Action) {
    !a.CrashWorker? && !a.LoseDispatch? && !a.Sweep?
  }

  predicate Finished(s: System, id: Id) {
    id in s.db.analyses && Terminal(s.db.analyses[id].status)
  }

  /** How far the analysis is from its end. */
  function Distance(s: System, id: Id): nat {
    if id !in s.jobs then 20
    else match s.jobs[id].exec
      case None => 10
      case Some(pc) =>
        match pc
        case Retrying(_) => 12
        case Threw => 11
        case Begin => 9
        case Mismatched => 8
        case Claiming(_) => 8
        case Working => 7
        case Reporting(_) => 6
        case Completing(_) => 5
        case Failing(_) => 4
        case Returned => 0
  }

  /** The step the one live job under this key takes next. */
  function JobStep(s: System, id: Id): Action
    requires id in s.jobs
  {
    match s.jobs[id].exec
    case None => StartJob(id)
    case Some(pc) =>
      match pc
      case Begin => Read(id)
      case Mismatched => FailMismatch(id, 0)
      case Claiming(_) => Claim(id, 0)
      case Working => Decide(id, ConnectionUnavailable)
      case Retrying(_) => Retry(id, 0)
      case Failing(_) => GiveUp(id, 0)
      case Reporting(_) => ReportScoring(id, 0)
      case Completing(_) => Finish(id, 0)
      case Threw => Throw(id)
      case Returned => Return(id)
  }

  lemma JobStepAdvances(s: System, id: Id)
    requires Inv(s) && id in s.db.analyses && !Finished(s, id) && id in s.jobs
    ensures Enabled(s, JobStep(s, id)) && Orderly(JobStep(s, id))
    ensures var s' := Next(s, JobStep(s, id));
      id in s'.db.analyses && (Finished(s', id) || (id in s'.jobs && Distance(s', id) < Distance(s, id)))
  {
    hide Parses;
    assert IdOk(s, id);
  }

  /** A queued analysis without a job can always be dispatched. */
  lemma {:induction false} DispatchReaches(s: System, id: Id) returns (first: Action, second: Action)
    requires Inv(s) && id in s.db.analyses && !Finished(s, id) && id !in s.jobs
    ensures Orderly(first) && Orderly(second)
    ensures var s' := Next(Next(s, first), second);
      id in s'.db.analyses && !Finished(s', id) && id in s'.jobs && s'.jobs[id].exec == None
  {
    hide Parses;
    assert IdOk(s, id);
    var ready := Backfill(s.db);
    var d := ready.deliveries[id];
    var now := if d.status == Delivering && d.leaseExpiresAt.Some? then d.leaseExpiresAt.value else d.availableAt;
    first := ClaimDeliveries({id}, "", now, now);
    var leased := Next(s, first);
    var dispatch := Dispatch(PayloadOf(id, leased.db.analyses[id]), "", leased.db.deliveries[id].attempts, false);
    assert dispatch in leased.dispatches;
    second := Enqueue(dispatch, true);
  }

  /** From every reachable state every unfinished analysis can still finish, without another crash,
      lost dispatch or deletion: the protocol never strands a row. */
  lemma {:induction false} CanFinish(s: System, id: Id) returns (trace: seq<Action>)
    requires Inv(s) && id in s.db.analyses
    ensures Finished(After(s, trace), id)
    ensures forall a :: a in trace ==> Orderly(a)
    decreases Distance(s, id)
  {
    hide Inv, Next, Distance;
    if Finished(s, id) { return []; }
    if id in s.jobs {
      JobStepAdvances(s, id);
      StepKeeps(s, JobStep(s, id));
      if Finished(Next(s, JobStep(s, id)), id) { return [JobStep(s, id)]; }
      var rest := CanFinish(Next(s, JobStep(s, id)), id);
      trace := [JobStep(s, id)] + rest;
      AfterAppend(s, [JobStep(s, id)], rest);
    } else {
      var first, second := DispatchReaches(s, id);
      StepKeeps(s, first);
      StepKeeps(Next(s, first), second);
      assert Distance(Next(Next(s, first), second), id) < Distance(s, id) by { DistanceDrops(s, Next(Next(s, first), second), id); }
      var rest := CanFinish(Next(Next(s, first), second), id);
      trace := [first, second] + rest;
      AfterAppend(s, [first, second], rest);
      assert After(s, [first, second]) == After(Next(s, first), [second]);
    }
  }

  lemma DistanceDrops(s: System, s': System, id: Id)
    requires id !in s.jobs && id in s'.jobs && s'.jobs[id].exec == None
    ensures Distance(s', id) < Distance(s, id)
  {
  }

  lemma NoReachableStateIsStuck(trace: seq<Action>, id: Id) returns (rest: seq<Action>)
    requires id in After(START, trace).db.analyses
    ensures Finished(After(START, trace + rest), id)
    ensures forall a :: a in rest ==> Orderly(a)
  {
    StartHolds();
    RunKeeps(START, trace);
    rest := CanFinish(After(START, trace), id);
    AfterAppend(START, trace, rest);
  }

  // ----- the racing reader -----

  datatype Snapshot = Snapshot(analysis: Analysis, report: Option<Report>)

  predicate Refused(a: Analysis, owner: Option<string>) {
    (a.owner.Some? && a.owner != owner) || (a.connection.Some? && a.owner == None)
  }

  /** `readRepositoryAnalysis` over the three stores its reads see. */
  function Answer(first: Db, second: Db, third: Db, id: Id, owner: Option<string>): Option<Snapshot> {
    if id !in first.analyses || Refused(first.analyses[id], owner) then None
    else if !HasReport(first.analyses[id].status) then Some(Snapshot(first.analyses[id], None))
    else if id in second.reports then Some(Snapshot(first.analyses[id], Some(second.reports[id])))
    else if id !in third.analyses || (third.analyses[id].owner.Some? && third.analyses[id].owner != owner) then None
    else Some(Snapshot(third.analyses[id], None))
  }

  /** Whatever steps are taken before and between the three reads: a completed analysis is answered
      with its report, and with the one report it will ever have; it is answered only to its owner;
      and nothing is answered only when the row is gone or was refused. */
  lemma ReaderNeverMissesAReport(s: System, between: seq<Action>, later: seq<Action>, id: Id, owner: Option<string>)
    requires Inv(s)
    ensures var s1 := After(s, between);
      var s2 := After(s1, later);
      var answer := Answer(s.db, s1.db, s2.db, id, owner);
      && (answer.Some? ==>
            && id in s.db.analyses && answer.value.analysis == s.db.analyses[id] && !Refused(s.db.analyses[id], owner)
            && (HasReport(answer.value.analysis.status) <==> answer.value.report.Some?)
            && (answer.value.report.Some? ==> id in s.db.reports && answer.value.report.value == s.db.reports[id]))
      && (answer == None ==>
            id !in s.db.analyses || Refused(s.db.analyses[id], owner) || id !in s2.db.analyses)
  {
    hide Next, Effect, Enabled, Parses;
    assert IdOk(s, id);
    var s1 := After(s, between);
    RunKeeps(s, between);
    RunIsFinal(s, between, id);
    assert IdOk(s1, id);
    RunIsFinal(s1, later, id);
  }
}
