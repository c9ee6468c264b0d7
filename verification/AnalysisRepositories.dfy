/** `DrizzleAnalysisRepository`: the three tables, and each method as one atomic statement or
    transaction that updates them in place. Every method is proved against the guarded step of
    `JobProtocolModel` it performs. */
module AnalysisRepositories {
  import opened Text
  import opened JobProtocolModel

  /** Earlier time first, then by id. */
  predicate Earlier(time: Id -> nat, left: Id, right: Id) {
    time(left) < time(right) || (time(left) == time(right) && Less(left, right))
  }

  lemma {:induction false} EarlierIsAnOrder(time: Id -> nat, a: Id, b: Id, c: Id)
    ensures a != b ==> (Earlier(time, a, b) <==> !Earlier(time, b, a))
    ensures Earlier(time, a, b) && Earlier(time, b, c) ==> Earlier(time, a, c)
  {
    LessTotal(a, b);
    if Less(a, b) && Less(b, a) { LessAsymmetric(a, b); }
    if Less(a, b) && Less(b, c) { LessTransitive(a, b, c); }
  }

  /** `ORDER BY time, id LIMIT limit`: the earliest members of the pool, and as many as allowed. */
  ghost predicate Oldest(time: Id -> nat, pool: set<Id>, limit: nat, chosen: set<Id>) {
    && chosen <= pool
    && |chosen| == (if |pool| < limit then |pool| else limit)
    && forall c, other :: c in chosen && other in pool - chosen ==> Earlier(time, c, other)
  }

  method EarliestOf(time: Id -> nat, pool: set<Id>) returns (first: Id)
    requires pool != {}
    ensures first in pool && forall other :: other in pool - {first} ==> Earlier(time, first, other)
  {
    first :| first in pool;
    var rest := pool - {first};
    while rest != {}
      invariant rest <= pool && first in pool && first !in rest
      invariant forall other :: other in pool - rest - {first} ==> Earlier(time, first, other)
    {
      var next :| next in rest;
      EarlierIsAnOrder(time, next, first, first);
      rest := rest - {next};
      if Earlier(time, next, first) {
        forall other | other in pool - rest - {next} ensures Earlier(time, next, other) {
          EarlierIsAnOrder(time, next, first, other);
        }
        first := next;
      }
    }
  }

  method TakeOldest(time: Id -> nat, pool: set<Id>, limit: nat) returns (chosen: seq<Id>)
    ensures Oldest(time, pool, limit, set c | c in chosen)
  {
    chosen := [];
    var rest := pool;
    ghost var taken: set<Id> := {};
    while |chosen| < limit && rest != {}
      invariant taken == (set c | c in chosen) && |taken| == |chosen| <= limit
      invariant taken * rest == {} && taken + rest == pool
      invariant forall c, other :: c in taken && other in rest ==> Earlier(time, c, other)
      decreases rest
    {
      var next := EarliestOf(time, rest);
      chosen := chosen + [next];
      taken := taken + {next};
      rest := rest - {next};
    }
    assert |pool| == |taken| + |rest|;
    assert pool - taken == rest;
  }

  function RetentionEnd(db: Db): Id -> nat {
    id => if id in db.analyses && db.analyses[id].retentionExpiresAt.Some? then db.analyses[id].retentionExpiresAt.value else 0
  }

  /** What the sweep may delete: rows another transaction holds are skipped. */
  function ExpiredRows(db: Db, now: nat, locked: set<Id>): set<Id> {
    set id | id in db.analyses && Expired(db.analyses[id], now) && id !in locked
  }

  function AvailableTime(db: Db): Id -> nat {
    id => if id in db.deliveries then db.deliveries[id].availableAt else 0
  }

  function CandidateRows(db: Db, now: nat, locked: set<Id>): set<Id> {
    set id | id in db.deliveries && IsCandidate(db, now, id) && id !in locked
  }

  class AnalysisRepository {
    var analyses: map<Id, Analysis>
    var reports: map<Id, Report>
    var deliveries: map<Id, Delivery>

    function Tables(): Db
      reads this
    {
      Db(analyses, reports, deliveries)
    }

    constructor ()
      ensures Tables() == START.db
    {
      analyses, reports, deliveries := map[], map[], map[];
    }

    /** Returns how many expired analyses went; an invalid limit is refused. */
    method PurgeExpiredTerminalAnalyses(now: nat, limit: int, locked: set<Id>) returns (ok: bool, count: nat,
        ghost chosen: set<Id>)
      modifies this
      ensures ok <==> 1 <= limit <= 1000
      ensures Tables() == Purge(old(Tables()), chosen)
      ensures count == |chosen|
      ensures !ok ==> chosen == {}
      ensures ok ==> Oldest(RetentionEnd(old(Tables())), ExpiredRows(old(Tables()), now, locked), limit, chosen)
      ensures forall id :: id in chosen ==> id in old(analyses) && Expired(old(analyses)[id], now)
    {
      if limit < 1 || limit > 1000 { return false, 0, {}; }
      var first := TakeOldest(RetentionEnd(Tables()), ExpiredRows(Tables(), now, locked), limit);
      chosen := set c | c in first;
      ok := true;
      count := |set c | c in first|;
      analyses := analyses - (set c | c in first);
      reports := reports - (set c | c in first);
      deliveries := deliveries - (set c | c in first);
    }

    method InsertQueuedAnalysis(input: Submission)
      modifies this`analyses
      ensures Tables() == InsertQueued(old(Tables()), input)
    {
      if input.id !in analyses {
        analyses := analyses[input.id := Analysis(
          input.url, input.ref, input.owner, input.connection, Queued, StageQueued, None, input.createdAt, None, None, input.createdAt, input.retentionExpiresAt, None)];
      }
    }

    /** Throws (`ok` is false) when the id is bound to other input. */
    method CreateQueuedRepositoryAnalysis(input: Submission) returns (ok: bool)
      modifies this`analyses
      ensures (Tables(), ok) == Create(old(Tables()), input)
    {
      InsertQueuedAnalysis(input);
      var row := analyses[input.id];
      ok := !(row.url != input.url || row.ref != input.ref || row.owner != input.owner || row.connection != input.connection);
    }

    /** One transaction: throwing undoes the insertion. */
    method CreateQueuedRepositoryAnalysisWithDelivery(input: Submission) returns (ok: bool)
      modifies this
      ensures (Tables(), ok) == CreateWithDelivery(old(Tables()), input)
    {
      var before := analyses;
      InsertQueuedAnalysis(input);
      var row := analyses[input.id];
      if row.url != input.url || row.ref != input.ref || row.owner != input.owner || row.connection != input.connection {
        analyses := before;
        return false;
      }
      if row.status == Queued && row.activeJob == None && input.id !in deliveries {
        deliveries := deliveries[input.id := Delivery(Pending, 0, input.createdAt, None, None, None, input.createdAt)];
      }
      ok := true;
    }

    /** Backfills missing deliveries, then leases the earliest claimable ones that no other
        transaction has locked. */
    method ClaimPendingRepositoryAnalysisDeliveries(limit: int, token: string, now: nat, expiresAt: nat,
        locked: set<Id>)
      returns (ok: bool, rows: seq<Dispatch>, ghost chosen: set<Id>)
      modifies this
      ensures ok <==> limit > 0
      ensures !ok ==> Tables() == old(Tables()) && rows == []
      ensures ok ==>
        && Oldest(AvailableTime(Backfill(old(Tables()))), CandidateRows(Backfill(old(Tables())), now, locked), limit,
          chosen)
        && Tables() == LeaseDeliveries(Backfill(old(Tables())), chosen, token, now, expiresAt)
        && (forall d :: d in rows <==> d in DispatchesFor(Tables(), chosen, token))
    {
      if limit <= 0 { return false, [], {}; }
      InsertMissingDeliveries();
      var first := TakeOldest(AvailableTime(Tables()), CandidateRows(Tables(), now, locked), limit);
      chosen := set c | c in first;
      forall id | id in first ensures id in analyses && id in deliveries {
        assert id in chosen;
      }
      Lease(first, token, now, expiresAt);
      rows := LeasedRows(first, token);
      ok := true;
    }

    /** The first statement of the transaction. */
    method InsertMissingDeliveries()
      modifies this`deliveries
      ensures Tables() == Backfill(old(Tables()))
    {
      deliveries := deliveries + (map id | id in analyses && analyses[id].status == Queued && analyses[id].activeJob == None && id !in deliveries
        :: Delivery(Pending, 0, analyses[id].updatedAt, None, None, None, analyses[id].updatedAt));
    }

    /** The `UPDATE` of the second statement. */
    method Lease(first: seq<Id>, token: string, now: nat, expiresAt: nat)
      modifies this`deliveries
      ensures Tables() == LeaseDeliveries(old(Tables()), (set c | c in first), token, now, expiresAt)
    {
      deliveries := map id | id in deliveries ::
        if id in first
        then deliveries[id].(status := Delivering, attempts := deliveries[id].attempts + 1, leaseToken := Some(token),
          leaseExpiresAt := Some(expiresAt), updatedAt := now)
        else deliveries[id];
    }

    /** The columns the claim returns. */
    method LeasedRows(first: seq<Id>, token: string) returns (rows: seq<Dispatch>)
      requires forall id :: id in first ==> id in analyses && id in deliveries
      ensures forall d :: d in rows <==> d in DispatchesFor(Tables(), (set c | c in first), token)
    {
      rows := [];
      var i := 0;
      while i < |first|
        invariant 0 <= i <= |first|
        invariant forall d :: d in rows <==> d in DispatchesFor(Tables(), (set c | c in first[..i]), token)
      {
        var row := analyses[first[i]];
        var leased := Dispatch(Payload(first[i], row.url, row.ref), token, deliveries[first[i]].attempts, false);
        assert first[..i + 1] == first[..i] + [first[i]];
        rows := rows + [leased];
        i := i + 1;
      }
      assert first[..i] == first;
    }

    method MarkRepositoryAnalysisDeliveryDelivered(id: Id, token: string, at: nat)
      modifies this`deliveries
      ensures Tables() == MarkDelivered(old(Tables()), id, token, at)
    {
      if id in deliveries && deliveries[id].status == Delivering && deliveries[id].leaseToken == Some(token) {
        deliveries := deliveries[id := deliveries[id].(status := Delivered, leaseToken := None, leaseExpiresAt := None,
          deliveredAt := Some(at), updatedAt := at)];
      }
    }

    method RetryRepositoryAnalysisDelivery(id: Id, token: string, availableAt: nat, at: nat)
      modifies this`deliveries
      ensures Tables() == RetryDelivery(old(Tables()), id, token, availableAt, at)
    {
      if id in deliveries && deliveries[id].status == Delivering && deliveries[id].leaseToken == Some(token) {
        deliveries := deliveries[id := deliveries[id].(status := Pending, leaseToken := None, leaseExpiresAt := None,
          availableAt := availableAt, updatedAt := at)];
      }
    }

    method FindAnalysis(id: Id) returns (row: Option<Analysis>)
      ensures row == if id in analyses then Some(analyses[id]) else None
    {
      row := None;
      if id in analyses { row := Some(analyses[id]); }
    }

    method FindReport(id: Id) returns (row: Option<Report>)
      ensures row == if id in reports then Some(reports[id]) else None
    {
      row := None;
      if id in reports { row := Some(reports[id]); }
    }

    method ClaimForExecution(id: Id, job: nat, startedAt: nat) returns (claimed: bool)
      modifies this`analyses
      ensures (Tables(), claimed) == JobProtocolModel.ClaimForExecution(old(Tables()), id, job, startedAt)
    {
      claimed := id in analyses && (analyses[id].status == Queued || (analyses[id].status == Running && analyses[id].activeJob == Some(job)));
      if claimed {
        analyses := analyses[id := analyses[id].(status := Running, activeJob := Some(job),
          startedAt := Some(startedAt), updatedAt := startedAt, failure := None)];
      }
    }

    method UpdateProgress(id: Id, job: nat, stage: Stage, at: nat)
      modifies this`analyses
      ensures Tables() == JobProtocolModel.UpdateProgress(old(Tables()), id, job, stage, at)
    {
      if id in analyses && analyses[id].status == Running && analyses[id].activeJob == Some(job) {
        analyses := analyses[id := analyses[id].(stage := stage, updatedAt := at)];
      }
    }

    method MarkRetryPending(id: Id, job: nat, summary: FailureSummary, at: nat)
      modifies this`analyses
      ensures Tables() == JobProtocolModel.MarkRetryPending(old(Tables()), id, job, summary, at)
    {
      if id in analyses && analyses[id].activeJob == Some(job) && !Terminal(analyses[id].status) {
        analyses := analyses[id := analyses[id].(status := Queued, stage := StageQueued, activeJob := None,
          failure := Some(summary), updatedAt := at)];
      }
    }

    /** One transaction; the caller chooses between the two completed statuses. */
    method Complete(id: Id, job: nat, report: Report, at: nat, limited: bool)
      modifies this
      ensures limited == CompletionStatus(report).CompletedWithLimitations? ==>
        Tables() == JobProtocolModel.Complete(old(Tables()), id, job, report, at)
    {
      if !(id in analyses && analyses[id].activeJob == Some(job) && !Terminal(analyses[id].status)) { return; }
      analyses := analyses[id := analyses[id].(
        status := if limited then CompletedWithLimitations else Completed,
        stage := if limited then StageCompletedWithLimitations else StageCompleted,
        activeJob := None, completedAt := Some(at), updatedAt := at, failure := None)];
      reports := reports[id := report];
    }

    method Fail(id: Id, job: nat, summary: FailureSummary, at: nat)
      modifies this`analyses
      ensures Tables() == JobProtocolModel.Fail(old(Tables()), id, job, summary, at)
    {
      if id in analyses && (analyses[id].activeJob == None || analyses[id].activeJob == Some(job)) && !Terminal(analyses[id].status) {
        analyses := analyses[id := analyses[id].(status := Failed, stage := StageFailed, activeJob := None,
          failure := Some(summary), completedAt := Some(at), updatedAt := at)];
      }
    }
  }
}
