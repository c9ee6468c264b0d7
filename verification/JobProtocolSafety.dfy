/** What every interleaving of API processes, dispatchers, workers, crashes and retention sweeps
    keeps: a consistent store, at most one report per analysis, no lost submission, and a reader
    that never sees a completed analysis without its report. */
module JobProtocolSafety {
  import opened Text
  import opened JobProtocolModel

  predicate HasReport(status: Status) {
    status.Completed? || status.CompletedWithLimitations?
  }

  /** The queue will run it again, or is running it. */
  predicate Live(job: Job) {
    job.exec.Some? || job.attempts < MAX_ATTEMPTS
  }

  predicate Gone(db: Db, id: Id) {
    id !in db.analyses || Terminal(db.analyses[id].status)
  }

  /** The tables agree with each other, for one analysis id. */
  predicate StoreOk(s: System, id: Id) {
    && (id in s.db.analyses ==>
          && id in s.issued
          && (s.db.analyses[id].status == Running <==> s.db.analyses[id].activeJob.Some?)
          && (id in s.db.reports <==> HasReport(s.db.analyses[id].status))
          && Parses(PayloadOf(id, s.db.analyses[id])))
    && (id in s.db.reports ==> id in s.db.analyses)
    && (id in s.db.deliveries ==> id in s.db.analyses)
    && (id in s.db.deliveries && s.db.deliveries[id].status == Delivering ==> s.db.deliveries[id].leaseExpiresAt.Some?)
  }

  /** The attempt's position tells what it may assume about the row. */
  predicate PositionOk(db: Db, id: Id, job: Job)
    requires job.exec.Some?
  {
    match job.exec.value
    case Begin => true
    case Mismatched => true
    case Claiming(_) => true
    case Working => Holds(db, id, job.id)
    case Retrying(_) => Holds(db, id, job.id) && job.attempts < MAX_ATTEMPTS
    case Failing(_) => Holds(db, id, job.id)
    case Reporting(_) => Holds(db, id, job.id)
    case Completing(_) => Holds(db, id, job.id)
    case Threw => Gone(db, id) || (Claimable(db.analyses[id]) && job.attempts < MAX_ATTEMPTS)
    case Returned => Gone(db, id)
  }

  predicate JobOk(s: System, id: Id) {
    id in s.jobs ==>
      var job := s.jobs[id];
      && id in s.issued
      && job.id < s.nextJob
      && job.attempts <= MAX_ATTEMPTS
      && job.payload.id == id && Parses(job.payload)
      && (job.exec.Some? ==> PositionOk(s.db, id, job))
  }

  /** An unfinished analysis is held by, or will be reached by, the queue. */
  predicate NotLost(s: System, id: Id) {
    id in s.db.analyses && !Terminal(s.db.analyses[id].status) ==>
      && (id in s.jobs ==> Live(s.jobs[id]))
      && (s.db.analyses[id].status == Running ==> id in s.jobs && s.db.analyses[id].activeJob == Some(s.jobs[id].id))
      && (s.db.analyses[id].status == Queued && id in s.db.deliveries && s.db.deliveries[id].status == Delivered ==> id in s.jobs)
  }

  predicate DispatchOk(s: System, d: Dispatch) {
    && d.payload.id in s.issued && Parses(d.payload)
    && (d.enqueued ==> Gone(s.db, d.payload.id) || d.payload.id in s.jobs)
  }

  predicate IdOk(s: System, id: Id) {
    StoreOk(s, id) && JobOk(s, id) && NotLost(s, id)
  }

  ghost predicate Inv(s: System) {
    && (forall id :: IdOk(s, id))
    && (forall d :: d in s.dispatches ==> DispatchOk(s, d))
  }

  lemma StartHolds()
    ensures Inv(START)
  {
  }

  // ----- every step keeps the invariant -----

  /** The step concerns one analysis id only. */
  function Focus(a: Action): Option<Id> {
    match a
    case Submit(input, _) => Some(input.id)
    case ClaimDeliveries(_, _, _, _) => None
    case Enqueue(d, _) => Some(d.payload.id)
    case FinishDispatch(d, _) => Some(d.payload.id)
    case AbandonDispatch(d, _, _) => Some(d.payload.id)
    case LoseDispatch(d) => Some(d.payload.id)
    case StartJob(id) => Some(id)
    case Read(id) => Some(id)
    case FailMismatch(id, _) => Some(id)
    case Claim(id, _) => Some(id)
    case Progress(id, _, _) => Some(id)
    case Decide(id, _) => Some(id)
    case Retry(id, _) => Some(id)
    case GiveUp(id, _) => Some(id)
    case ReportScoring(id, _) => Some(id)
    case Finish(id, _) => Some(id)
    case Return(id) => Some(id)
    case Throw(id) => Some(id)
    case CrashWorker(id) => Some(id)
    case Sweep(_, _) => None
  }

  /** Nothing about this id differs, except that more ids and job numbers may have been issued. */
  predicate SameAt(s: System, s': System, id: Id) {
    && Lookup(s.db.analyses, id) == Lookup(s'.db.analyses, id)
    && Lookup(s.db.reports, id) == Lookup(s'.db.reports, id)
    && Lookup(s.db.deliveries, id) == Lookup(s'.db.deliveries, id)
    && Lookup(s.jobs, id) == Lookup(s'.jobs, id)
    && s.issued <= s'.issued && s.nextJob <= s'.nextJob
  }

  function Lookup<V>(m: map<Id, V>, id: Id): Option<V> {
    if id in m then Some(m[id]) else None
  }

  lemma OthersUnchanged(s: System, a: Action, id: Id)
    requires Enabled(s, a) && Focus(a).Some? && Focus(a) != Some(id)
    ensures SameAt(s, Effect(s, a), id)
  {
  }

  lemma SameAtKeeps(s: System, s': System, id: Id)
    requires SameAt(s, s', id) && IdOk(s, id)
    ensures IdOk(s', id)
  {
    hide Parses;
    SameHolds(s, s', id);
  }

  lemma SameHolds(s: System, s': System, id: Id)
    requires SameAt(s, s', id)
    ensures Gone(s.db, id) <==> Gone(s'.db, id)
    ensures forall job :: Holds(s.db, id, job) <==> Holds(s'.db, id, job)
    ensures id in s.db.analyses <==> id in s'.db.analyses
    ensures id in s.db.analyses ==> s.db.analyses[id] == s'.db.analyses[id]
    ensures id in s.db.reports <==> id in s'.db.reports
    ensures id in s.db.deliveries <==> id in s'.db.deliveries
    ensures id in s.db.deliveries ==> s.db.deliveries[id] == s'.db.deliveries[id]
    ensures id in s.jobs <==> id in s'.jobs
    ensures id in s.jobs ==> s.jobs[id] == s'.jobs[id]
  {
  }

  /** The store steps, at the id they concern. */
  lemma StoreStepKeeps(s: System, a: Action, id: Id)
    requires IdOk(s, id) && Enabled(s, a) && Focus(a) == Some(id)
    requires a.Submit? || a.FinishDispatch? || a.AbandonDispatch? || a.LoseDispatch?
    requires a.FinishDispatch? ==> DispatchOk(s, a.d)
    ensures IdOk(Effect(s, a), id)
  {
    hide Parses;
  }

  /** The queue steps, at the id they concern. */
  lemma QueueStepKeeps(s: System, a: Action, id: Id)
    requires IdOk(s, id) && Enabled(s, a) && Focus(a) == Some(id)
    requires a.Enqueue? || a.StartJob? || a.Return? || a.Throw? || a.CrashWorker?
    requires a.Enqueue? ==> DispatchOk(s, a.d)
    ensures IdOk(Effect(s, a), id)
  {
    hide Parses;
  }

  /** The steps of a running attempt, at the id they concern. */
  lemma AttemptStepKeeps(s: System, a: Action, id: Id)
    requires IdOk(s, id) && Enabled(s, a) && Focus(a) == Some(id)
    requires a.Read? || a.FailMismatch? || a.Claim? || a.Progress? || a.Decide?
    ensures IdOk(Effect(s, a), id)
  {
    hide Parses;
  }

  lemma EndingStepKeeps(s: System, a: Action, id: Id)
    requires IdOk(s, id) && Enabled(s, a) && Focus(a) == Some(id)
    requires a.Retry? || a.GiveUp? || a.ReportScoring? || a.Finish?
    ensures IdOk(Effect(s, a), id)
  {
    hide Parses;
  }

  lemma ClaimDeliveriesKeeps(s: System, a: Action, id: Id)
    requires IdOk(s, id) && Enabled(s, a) && a.ClaimDeliveries?
    ensures IdOk(Effect(s, a), id)
  {
    hide Parses;
  }

  lemma SweepKeeps(s: System, a: Action, id: Id)
    requires IdOk(s, id) && Enabled(s, a) && a.Sweep?
    ensures IdOk(Effect(s, a), id)
  {
    hide Parses;
  }

  lemma StepKeepsId(s: System, a: Action, id: Id)
    requires Inv(s) && Enabled(s, a)
    ensures IdOk(Effect(s, a), id)
  {
    hide Parses, JobOk, StoreOk, NotLost, Effect;
    assert IdOk(s, id);
    if a.ClaimDeliveries? { ClaimDeliveriesKeeps(s, a, id); }
    else if a.Sweep? { SweepKeeps(s, a, id); }
    else if Focus(a) != Some(id) {
      OthersUnchanged(s, a, id);
      SameAtKeeps(s, Effect(s, a), id);
    } else if a.Submit? || a.FinishDispatch? || a.AbandonDispatch? || a.LoseDispatch? { StoreStepKeeps(s, a, id); }
    else if a.Enqueue? || a.StartJob? || a.Return? || a.Throw? || a.CrashWorker? { QueueStepKeeps(s, a, id); }
    else if a.Read? || a.FailMismatch? || a.Claim? || a.Progress? || a.Decide? { AttemptStepKeeps(s, a, id); }
    else { EndingStepKeeps(s, a, id); }
  }

  /** A row that is finished or absent stays so. */
  lemma GoneStays(s: System, a: Action, id: Id)
    requires Inv(s) && Enabled(s, a) && id in s.issued && Gone(s.db, id)
    ensures Gone(Effect(s, a).db, id) && id in Effect(s, a).issued
  {
    hide Parses;
    assert IdOk(s, id);
  }

  lemma DispatchesKeep(s: System, a: Action, d: Dispatch)
    requires Inv(s) && Enabled(s, a) && d in Effect(s, a).dispatches
    ensures DispatchOk(Effect(s, a), d)
  {
    hide Parses;
    var id := d.payload.id;
    assert IdOk(s, id);
    if d in s.dispatches {
      assert DispatchOk(s, d);
      if d.enqueued && Gone(s.db, id) { GoneStays(s, a, id); }
    } else if a.Enqueue? {
      assert DispatchOk(s, a.d);
      if Gone(s.db, id) { GoneStays(s, a, id); }
    }
  }

  lemma StepKeeps(s: System, a: Action)
    requires Inv(s)
    ensures Inv(Next(s, a))
  {
    if Enabled(s, a) {
      forall id ensures IdOk(Effect(s, a), id) { StepKeepsId(s, a, id); }
      forall d | d in Effect(s, a).dispatches ensures DispatchOk(Effect(s, a), d) { DispatchesKeep(s, a, d); }
    }
  }

  lemma {:induction false} RunKeeps(s: System, trace: seq<Action>)
    requires Inv(s)
    ensures Inv(After(s, trace))
    decreases |trace|
  {
    if trace != [] {
      StepKeeps(s, trace[0]);
      RunKeeps(Next(s, trace[0]), trace[1..]);
    }
  }

  // ----- consistency of every reachable state -----

  /** In every reachable state: an analysis is running exactly when a job holds it, it has a report
      exactly when it completed, and reports and deliveries never outlive their analysis. */
  lemma ReachableStoreIsConsistent(trace: seq<Action>, id: Id)
    ensures var db := After(START, trace).db;
      && (id in db.analyses ==>
            && (db.analyses[id].status == Running <==> db.analyses[id].activeJob.Some?)
            && (id in db.reports <==> HasReport(db.analyses[id].status)))
      && (id in db.reports || id in db.deliveries ==> id in db.analyses)
  {
    StartHolds();
    RunKeeps(START, trace);
    assert IdOk(After(START, trace), id);
  }

  // ----- what a step may do to a finished analysis -----

  /** Finished analyses never change again until retention removes them whole, and a report, once
      written, is never rewritten. Retention removes only expired, unclaimed, finished rows. */
  predicate FinishedIsFinal(before: System, after: System, id: Id) {
    && (id in before.db.analyses && Terminal(before.db.analyses[id].status) && id in after.db.analyses ==>
          after.db.analyses[id] == before.db.analyses[id])
    && (id in before.db.reports && id in after.db.analyses ==>
          id in after.db.reports && after.db.reports[id] == before.db.reports[id])
    && (id in before.issued && id !in before.db.analyses ==> id !in after.db.analyses)
    && (id in before.db.analyses && id !in after.db.analyses ==> id !in after.db.reports && id !in after.db.deliveries)
    && before.issued <= after.issued
  }

  lemma StepIsFinal(s: System, a: Action, id: Id)
    requires Inv(s)
    ensures FinishedIsFinal(s, Next(s, a), id)
    ensures id in s.db.analyses && id !in Next(s, a).db.analyses ==>
      a.Sweep? && Expired(s.db.analyses[id], a.now)
  {
    hide Parses;
    assert IdOk(s, id);
    if Enabled(s, a) && Focus(a).Some? && Focus(a) != Some(id) {
      OthersUnchanged(s, a, id);
    }
  }

  lemma {:induction false} RunIsFinal(s: System, trace: seq<Action>, id: Id)
    requires Inv(s)
    ensures FinishedIsFinal(s, After(s, trace), id)
    decreases |trace|
  {
    if trace != [] {
      var s' := Next(s, trace[0]);
      StepIsFinal(s, trace[0], id);
      StepKeeps(s, trace[0]);
      RunIsFinal(s', trace[1..], id);
      RunKeeps(s', trace[1..]);
      assert IdOk(s, id) && IdOk(s', id) && IdOk(After(s, trace), id);
    }
  }

  /** A job that does not hold the row, or a dispatcher that does not hold the lease, changes
      nothing; an unclaimed row can still be failed, which is how mismatched input is recorded. */
  lemma StaleHoldersChangeNothing(db: Db, id: Id, job: nat, token: string, stage: Stage, summary: FailureSummary,
      report: Report, at: nat, later: nat)
    requires id in db.analyses && (db.analyses[id].status == Running <==> db.analyses[id].activeJob.Some?)
    ensures db.analyses[id].activeJob != Some(job) ==>
      && UpdateProgress(db, id, job, stage, at) == db
      && MarkRetryPending(db, id, job, summary, at) == db
      && Complete(db, id, job, report, at) == db
      && (Fail(db, id, job, summary, at) != db ==> Claimable(db.analyses[id]))
      && (ClaimForExecution(db, id, job, at).1 <==> Claimable(db.analyses[id]))
    ensures !HoldsLease(db, id, token) ==> MarkDelivered(db, id, token, at) == db && RetryDelivery(db, id, token, later, at) == db
  {
  }

  predicate NeverLeasesUnder(trace: seq<Action>, token: string) {
    forall i :: 0 <= i < |trace| && trace[i].ClaimDeliveries? ==> trace[i].token != token
  }

  lemma LeasesComeFromClaims(s: System, a: Action, id: Id, token: string)
    requires !HoldsLease(s.db, id, token) && (a.ClaimDeliveries? ==> a.token != token)
    ensures !HoldsLease(Next(s, a).db, id, token)
  {
    hide WellFormed, Parses, Claimable, Due, Expired;
  }

  /** A dispatcher whose lease ran out and was taken over is harmless for ever: whatever happens in
      between, its late answer finds the lease gone and changes nothing in the store. */
  lemma {:induction false} LateDispatchersChangeNothing(s: System, trace: seq<Action>, d: Dispatch, at: nat, later: nat)
    requires !HoldsLease(s.db, d.payload.id, d.token) && NeverLeasesUnder(trace, d.token)
    ensures var end := After(s, trace);
      && Next(end, FinishDispatch(d, at)).db == end.db
      && Next(end, AbandonDispatch(d, later, at)).db == end.db
    decreases |trace|
  {
    if trace != [] {
      LeasesComeFromClaims(s, trace[0], d.payload.id, d.token);
      assert forall i :: 0 <= i < |trace[1..]| ==> trace[1..][i] == trace[i + 1];
      LateDispatchersChangeNothing(Next(s, trace[0]), trace[1..], d, at, later);
    }
  }

  /** Such a take-over: another claim of the same delivery ends the lease that was held. */
  lemma RetakenLeaseIsLost(s: System, a: Action, id: Id, token: string)
    requires Enabled(s, a) && a.ClaimDeliveries? && id in a.chosen && a.token != token
    ensures !HoldsLease(Next(s, a).db, id, token)
  {
  }

  // ----- a delivery is left alone until its time -----

  /** It may be claimed from then on: a pending one when it becomes available, a leased one when the
      lease has run out. */
  predicate WaitsUntil(d: Delivery, until: nat) {
    (d.status == Pending && d.availableAt == until) || (d.status == Delivering && d.leaseExpiresAt == Some(until))
  }

  /** The holder of the lease itself answers. */
  predicate HolderActs(db: Db, id: Id, a: Action) {
    (a.FinishDispatch? || a.AbandonDispatch?) && a.d.payload.id == id && HoldsLease(db, id, a.d.token)
  }

  lemma {:induction false} StepWaits(s: System, a: Action, id: Id, until: nat)
    requires Inv(s) && id in s.db.deliveries && WaitsUntil(s.db.deliveries[id], until)
    requires (a.ClaimDeliveries? ==> a.now < until) && !HolderActs(s.db, id, a)
    ensures id in Next(s, a).db.deliveries ==> Next(s, a).db.deliveries[id] == s.db.deliveries[id]
    ensures id !in Next(s, a).db.deliveries ==> id !in Next(s, a).db.analyses
  {
    hide WellFormed, Parses, Expired, Holds, Claimable;
    assert IdOk(s, id);
  }

  lemma {:induction false} GoneDeliveriesStayGone(s: System, trace: seq<Action>, id: Id)
    requires Inv(s) && id in s.issued && id !in s.db.analyses
    ensures id !in After(s, trace).db.analyses && id !in After(s, trace).db.deliveries
    decreases |trace|
  {
    assert IdOk(s, id);
    if trace != [] {
      StepKeeps(s, trace[0]);
      StepIsFinal(s, trace[0], id);
      GoneDeliveriesStayGone(Next(s, trace[0]), trace[1..], id);
    }
  }

  /** A live lease is exclusive, and a delivery given back is not handed out before it is available
      again: whatever other processes do in the meantime, as long as claims come before that time and
      the holder does not answer, the delivery stays exactly as it is, or goes with its whole row. */
  lemma {:induction false} DeliveriesWaitTheirTime(s: System, trace: seq<Action>, id: Id, until: nat)
    requires Inv(s) && id in s.db.deliveries && WaitsUntil(s.db.deliveries[id], until)
    requires forall a :: a in trace ==> (a.ClaimDeliveries? ==> a.now < until) && !HolderActs(s.db, id, a)
    ensures id in After(s, trace).db.deliveries ==> After(s, trace).db.deliveries[id] == s.db.deliveries[id]
    ensures id !in After(s, trace).db.deliveries ==> id !in After(s, trace).db.analyses
    decreases |trace|
  {
    hide Inv, WaitsUntil, Next;
    if trace == [] { return; }
    var a, s' := trace[0], Next(s, trace[0]);
    assert a in trace;
    StepWaits(s, a, id, until);
    StepKeeps(s, a);
    assert forall b :: b in trace[1..] ==> b in trace;
    if id in s'.db.deliveries { DeliveriesWaitTheirTime(s', trace[1..], id, until); }
    else {
      IssuedStays(s, a, id);
      GoneDeliveriesStayGone(s', trace[1..], id);
    }
  }

  lemma IssuedStays(s: System, a: Action, id: Id)
    requires Inv(s) && id in s.db.deliveries
    ensures id in Next(s, a).issued
  {
    assert IdOk(s, id);
  }

  // ----- a job carries the input of its row -----

  predicate PayloadOk(s: System, id: Id) {
    id in s.jobs ==>
      && (id in s.db.analyses ==> s.jobs[id].payload == PayloadOf(id, s.db.analyses[id]))
      && s.jobs[id].exec != Some(Mismatched)
  }

  predicate DispatchPayloadOk(s: System, d: Dispatch) {
    d.payload.id in s.db.analyses ==> d.payload == PayloadOf(d.payload.id, s.db.analyses[d.payload.id])
  }

  ghost predicate PayloadsOk(s: System) {
    (forall id :: PayloadOk(s, id)) && (forall d :: d in s.dispatches ==> DispatchPayloadOk(s, d))
  }

  /** A row keeps its input, and a new row is new. */
  lemma InputStays(s: System, a: Action, id: Id)
    requires Inv(s) && Enabled(s, a) && id in s.issued && id in Effect(s, a).db.analyses
    ensures id in s.db.analyses && PayloadOf(id, Effect(s, a).db.analyses[id]) == PayloadOf(id, s.db.analyses[id])
  {
    hide Parses;
    assert IdOk(s, id);
  }

  /** A job that a step leaves alone, or that a step adds for a dispatch. */
  lemma JobsKeepPayloads(s: System, a: Action, id: Id)
    requires Enabled(s, a) && id in Effect(s, a).jobs
    ensures id in s.jobs ==> Effect(s, a).jobs[id].payload == s.jobs[id].payload
    ensures id !in s.jobs ==>
      a.Enqueue? && a.d in s.dispatches && a.d.payload.id == id && Effect(s, a).jobs[id].payload == a.d.payload
    ensures Effect(s, a).jobs[id].exec == Some(Mismatched) ==>
      id in s.jobs && (s.jobs[id].exec == Some(Mismatched) || AfterRead(s.db, s.jobs[id].payload) == Mismatched)
  {
    hide Parses, Claimable, HoldsLease, Holds, Expired, Due, WellFormed, AfterRead;
  }

  lemma JobPayloadKeeps(s: System, a: Action, id: Id)
    requires Inv(s) && PayloadsOk(s) && Enabled(s, a)
    ensures PayloadOk(Effect(s, a), id)
  {
    hide Effect, Enabled, StoreOk, NotLost, Parses;
    if id in Effect(s, a).jobs {
      assert IdOk(s, id) && PayloadOk(s, id);
      JobsKeepPayloads(s, a, id);
      if id !in s.jobs { assert DispatchOk(s, a.d) && DispatchPayloadOk(s, a.d); }
      if id in Effect(s, a).db.analyses {
        InputStays(s, a, id);
      }
    }
  }

  lemma DispatchPayloadKeeps(s: System, a: Action, d: Dispatch)
    requires Inv(s) && PayloadsOk(s) && Enabled(s, a) && d in Effect(s, a).dispatches
    ensures DispatchPayloadOk(Effect(s, a), d)
  {
    hide Parses;
    var id := d.payload.id;
    if d in s.dispatches { assert DispatchOk(s, d) && DispatchPayloadOk(s, d); }
    if a.Enqueue? { assert DispatchOk(s, a.d) && DispatchPayloadOk(s, a.d); }
    if id in s.issued && id in Effect(s, a).db.analyses { InputStays(s, a, id); }
  }

  lemma {:induction false} PayloadsKeep(s: System, trace: seq<Action>)
    requires Inv(s) && PayloadsOk(s)
    ensures PayloadsOk(After(s, trace))
    decreases |trace|
  {
    hide Inv;
    if trace != [] {
      var s' := Next(s, trace[0]);
      if Enabled(s, trace[0]) {
        forall id ensures PayloadOk(s', id) { JobPayloadKeeps(s, trace[0], id); }
        forall d | d in s'.dispatches ensures DispatchPayloadOk(s', d) { DispatchPayloadKeeps(s, trace[0], d); }
      }
      StepKeeps(s, trace[0]);
      PayloadsKeep(s', trace[1..]);
    }
  }

  /** As ids are not reused, a job's payload is always the input of its row: in no reachable state
      does an attempt record an input mismatch. */
  lemma {:induction false} MismatchIsUnreachable(trace: seq<Action>, id: Id)
    ensures var s := After(START, trace);
      id in s.jobs ==>
        && (id in s.db.analyses ==> s.jobs[id].payload == PayloadOf(id, s.db.analyses[id]))
        && At(s, id) != Some(Mismatched)
  {
    StartHolds();
    PayloadsKeep(START, trace);
    assert PayloadOk(After(START, trace), id);
  }

  // ----- no accepted submission is lost -----

  /** From time `t` on, every claim may pick this analysis up. */
  ghost predicate ClaimableFrom(db: Db, id: Id, t: nat) {
    forall now :: t <= now ==> IsCandidate(Backfill(db), now, id)
  }

  /** In every reachable state, an analysis that is not finished is either queued and unclaimed with
      a delivery that every claim from some time on can take, or is held by the one job under its
      key, which is live, and whose id is the active one whenever the analysis is running. */
  lemma NoSubmissionIsLost(trace: seq<Action>, id: Id) returns (t: nat)
    ensures var s := After(START, trace);
      id in s.db.analyses && !Terminal(s.db.analyses[id].status) ==>
        || (Claimable(s.db.analyses[id]) && ClaimableFrom(s.db, id, t))
        || (id in s.jobs && Live(s.jobs[id]) && (s.db.analyses[id].status == Running ==> s.db.analyses[id].activeJob == Some(s.jobs[id].id)))
  {
    var s := After(START, trace);
    StartHolds();
    RunKeeps(START, trace);
    assert IdOk(s, id);
    var deliveries := Backfill(s.db).deliveries;
    t := 0;
    if id in deliveries {
      var d := deliveries[id];
      t := if d.status == Delivering && d.leaseExpiresAt.Some? then d.leaseExpiresAt.value else d.availableAt;
    }
  }

  /** What an attempt leaves behind: if it throws, it was not the last one and the analysis is
      queued again (or its row is gone); if it returns, the analysis is finished or gone. */
  lemma AttemptsEndCleanly(trace: seq<Action>, id: Id)
    ensures var s := After(START, trace);
      && (At(s, id) == Some(Threw) ==>
            Gone(s.db, id) || (s.jobs[id].attempts < MAX_ATTEMPTS && Claimable(s.db.analyses[id])))
      && (At(s, id) == Some(Returned) ==> Gone(s.db, id))
  {
    StartHolds();
    RunKeeps(START, trace);
    assert IdOk(After(START, trace), id);
  }
}
