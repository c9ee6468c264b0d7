/** The OSV adapter's acquisition in its own form: accumulators and a failure list that the pages of
    each round update in place, and the query list filled through a map. */
module OsvAdapter {
  import opened Text
  import opened OsvPagination

  class BatchAcquisition {
    const maxRounds: nat
    const world: World
    var accumulators: map<Query, Accumulator>
    var partialFailures: seq<Failure>

    function State(): Progress
      reads this
    {
      Progress(accumulators, partialFailures)
    }

    constructor (maxRounds: nat, world: World, queries: seq<Query>)
      ensures this.maxRounds == maxRounds && this.world == world && State() == Start(queries)
    {
      this.maxRounds := maxRounds;
      this.world := world;
      accumulators := map q | q in queries :: EMPTY;
      partialFailures := [];
    }

    /** Newer matches replace older ones of the same advisory. */
    method AbsorbMatches(query: Query, found: seq<Match>)
      requires query in accumulators
      modifies this`accumulators
      ensures accumulators == old(accumulators)[query := old(accumulators)[query].(matches := Absorb(old(accumulators)[query].matches, found))]
    {
      var matches := accumulators[query].matches;
      ghost var goal := Absorb(matches, found);
      for i := 0 to |found|
        invariant Absorb(matches, found[i..]) == goal
      {
        var m := found[i];
        assert found[i..][0] == m && found[i..][1..] == found[i + 1..];
        if m.id !in matches || m.modifiedAt > matches[m.id].modifiedAt {
          matches := matches[m.id := m];
        }
      }
      accumulators := accumulators[query := accumulators[query].(matches := matches)];
    }

    /** One entry's page: its matches, then whether the query goes on, is done or gives up. */
    method TakePage(entry: Pending, page: Page) returns (next: Option<Pending>)
      requires entry.query in accumulators
      modifies this
      ensures State() == Record(maxRounds, old(State()), entry, page)
      ensures next == if Continues(maxRounds, entry, page) then Some(Pending(entry.query, page.next, entry.round + 1)) else None
    {
      hide Absorb;
      AbsorbMatches(entry.query, page.matches);
      assert partialFailures + [] == partialFailures;
      if page.next == None {
        return None;
      }
      var nextRound := entry.round + 1;
      if nextRound >= maxRounds || page.next == entry.token {
        accumulators := accumulators[entry.query := accumulators[entry.query].(complete := false)];
        partialFailures := partialFailures + [PaginationIncomplete(entry.query)];
        return None;
      }
      next := Some(Pending(entry.query, page.next, nextRound));
    }

    /** The loop over one response. */
    method TakePages(pending: seq<Pending>, pages: seq<Page>) returns (nextPending: seq<Pending>)
      requires |pages| == |pending| && forall i :: 0 <= i < |pending| ==> pending[i].query in accumulators
      modifies this
      ensures State() == RecordAll(maxRounds, old(State()), pending, pages)
      ensures nextPending == NextPending(maxRounds, pending, pages)
    {
      hide Record, Continues, RecordAll, NextPending;
      nextPending := [];
      ghost var goal, all := RecordAll(maxRounds, State(), pending, pages), NextPending(maxRounds, pending, pages);
      assert pending[0..] == pending && pages[0..] == pages && [] + all == all;
      for i := 0 to |pending|
        invariant forall k :: 0 <= k < |pending| ==> pending[k].query in accumulators
        invariant RecordAll(maxRounds, State(), pending[i..], pages[i..]) == goal
        invariant nextPending + NextPending(maxRounds, pending[i..], pages[i..]) == all
      {
        ghost var rest := NextPending(maxRounds, pending[i + 1..], pages[i + 1..]);
        OnePage(maxRounds, State(), pending, pages, i);
        var next := TakePage(pending[i], pages[i]);
        ghost var before := nextPending;
        if next.Some? { nextPending := nextPending + [next.value]; }
        assert nextPending + rest == before + ((if next.Some? then [next.value] else []) + rest);
      }
      NoPages(maxRounds, State(), pending, pages);
      assert nextPending + [] == nextPending;
    }

    method MarkIncomplete(pending: seq<Pending>, code: string)
      requires forall i :: 0 <= i < |pending| ==> pending[i].query in accumulators
      modifies this
      ensures State() == Abandon(old(State()), pending, code)
    {
      for i := 0 to |pending|
        invariant accumulators == map q | q in old(accumulators) ::
          if exists k :: 0 <= k < i && pending[k].query == q then old(accumulators)[q].(complete := false) else old(accumulators)[q]
        invariant partialFailures == old(partialFailures)
      {
        accumulators := accumulators[pending[i].query := accumulators[pending[i].query].(complete := false)];
      }
      partialFailures := partialFailures + [PageFailed(code)];
    }

    /** `acquireBatchPages`; true is the unavailable result. Ends within the round limit. */
    method AcquireBatchPages(pending: seq<Pending>, ghost round: nat,
        acquiredAnyBatchPage: bool) returns (unavailable: bool)
      requires Ready(maxRounds, State(), pending, round) && acquiredAnyBatchPage == (round > 0)
      modifies this
      ensures unavailable <==> Acquire(maxRounds, world, old(State()), pending, round) == None
      ensures !unavailable ==> Acquire(maxRounds, world, old(State()), pending, round) == Some(State())
      decreases maxRounds - round
    {
      hide Record, Continues, NextPending, Abandon;
      if |pending| == 0 { return false; }
      var reply := world(pending);
      if reply.Failed? || |reply.pages| != |pending| {
        if !acquiredAnyBatchPage { return true; }
        MarkIncomplete(pending, if reply.Failed? then reply.code else MALFORMED);
        return false;
      }
      ghost var before := State();
      var nextPending := TakePages(pending, reply.pages);
      NextIsInRound(maxRounds, before, pending, reply.pages, round);
      assert nextPending != [] ==> round + 1 < maxRounds by {
        if nextPending != [] {
          assert nextPending[0] in nextPending;
          var i :| Follows(maxRounds, pending, reply.pages, i, nextPending[0]);
          ContinuesBelow(maxRounds, pending[i], reply.pages[i]);
        }
      }
      unavailable := AcquireBatchPages(nextPending, round + 1, true);
    }

  }

  lemma OnePage(maxRounds: nat, p: Progress, pending: seq<Pending>, pages: seq<Page>, i: nat)
    requires |pages| == |pending| && i < |pending| && forall k :: 0 <= k < |pending| ==> pending[k].query in p.accumulators
    ensures Record(maxRounds, p, pending[i], pages[i]).accumulators.Keys == p.accumulators.Keys
    ensures RecordAll(maxRounds, p, pending[i..], pages[i..])
      == RecordAll(maxRounds, Record(maxRounds, p, pending[i], pages[i]), pending[i + 1..], pages[i + 1..])
    ensures NextPending(maxRounds, pending[i..], pages[i..])
      == (if Continues(maxRounds, pending[i], pages[i]) then [Pending(pending[i].query, pages[i].next, pending[i].round + 1)] else [])
         + NextPending(maxRounds, pending[i + 1..], pages[i + 1..])
  {
    hide Continues, GivesUp, Absorb;
    assert pending[i..][0] == pending[i] && pending[i..][1..] == pending[i + 1..];
    assert pages[i..][0] == pages[i] && pages[i..][1..] == pages[i + 1..];
  }

  lemma NoPages(maxRounds: nat, p: Progress, pending: seq<Pending>, pages: seq<Page>)
    requires |pages| == |pending|
    ensures RecordAll(maxRounds, p, pending[|pending|..], pages[|pages|..]) == p
    ensures NextPending(maxRounds, pending[|pending|..], pages[|pages|..]) == []
  {
  }

  // ----- `normalizeQueries` -----

  predicate QueryBefore(left: Query, right: Query) {
    Less(left.packageName, right.packageName) || (left.packageName == right.packageName && !Less(right.version, left.version))
  }

  predicate QueriesInOrder(queries: seq<Query>) {
    forall i, j :: 0 <= i < j < |queries| ==> QueryBefore(queries[i], queries[j])
  }

  lemma QueryBeforeTransitive(a: Query, b: Query, c: Query)
    requires QueryBefore(a, b) && QueryBefore(b, c)
    ensures QueryBefore(a, c)
  {
    LessIrreflexive(a.packageName);
    if a.packageName == b.packageName == c.packageName {
      NotLessTransitive(a.version, b.version, c.version);
    } else if a.packageName != b.packageName && b.packageName != c.packageName {
      LessTransitive(a.packageName, b.packageName, c.packageName);
    }
  }

  lemma QueryBeforeTotal(a: Query, b: Query)
    ensures QueryBefore(a, b) || QueryBefore(b, a)
  {
    LessTotal(a.packageName, b.packageName);
    if Less(a.version, b.version) { LessAsymmetric(b.version, a.version); }
  }

  lemma PrependInOrder(x: Query, queries: seq<Query>)
    requires QueriesInOrder(queries) && forall y :: y in queries ==> QueryBefore(x, y)
    ensures QueriesInOrder([x] + queries)
  {
    hide QueryBefore;
  }

  lemma {:induction false} InsertKeepsQueriesInOrder(x: Query, queries: seq<Query>)
    requires QueriesInOrder(queries)
    ensures QueriesInOrder(Insert(QueryBefore, x, queries))
  {
    hide QueryBefore;
    if queries == [] { return; }
    var first, others := queries[0], queries[1..];
    forall y | y in others ensures QueryBefore(first, y) { var j :| 0 < j < |queries| && queries[j] == y; }
    assert QueriesInOrder(others);
    hide QueriesInOrder;
    assert queries == [first] + others;
    QueryBeforeTotal(x, first);
    if QueryBefore(x, first) {
      forall y | y in queries ensures QueryBefore(x, y) {
        if y in others { QueryBeforeTransitive(x, first, y); }
      }
      PrependInOrder(x, queries);
    } else {
      var rest := Insert(QueryBefore, x, others);
      InsertKeepsQueriesInOrder(x, others);
      forall y | y in rest ensures QueryBefore(first, y) { assert y in multiset(rest); }
      PrependInOrder(first, rest);
    }
  }

  /** Sorted by package name, then by version. */
  lemma {:induction false} SortedQueriesAreInOrder(queries: seq<Query>)
    ensures QueriesInOrder(Sort(QueryBefore, queries))
  {
    if queries != [] {
      SortedQueriesAreInOrder(queries[1..]);
      InsertKeepsQueriesInOrder(queries[0], Sort(QueryBefore, queries[1..]));
    }
  }

  /** Repeated queries collapse; `valid` is the check of package name and exact version. */
  method NormalizeQueries(queries: seq<Query>, maxQueries: nat,
      valid: Query -> bool) returns (normalized: Option<seq<Query>>)
    ensures normalized == None <==> queries == [] || |queries| > maxQueries || exists q :: q in queries && !valid(q)
    ensures normalized.Some? ==> DistinctQueries(normalized.value) && forall q :: q in normalized.value <==> q in queries
    ensures normalized.Some? ==> QueriesInOrder(normalized.value)
  {
    if |queries| == 0 || |queries| > maxQueries { return None; }
    var kept: seq<Query> := [];
    for i := 0 to |queries|
      invariant forall k :: 0 <= k < i ==> valid(queries[k])
      invariant forall q :: q in kept <==> q in queries[..i]
      invariant DistinctQueries(kept)
    {
      assert queries[..i + 1] == queries[..i] + [queries[i]];
      if !valid(queries[i]) { return None; }
      if queries[i] !in kept { kept := kept + [queries[i]]; }
    }
    assert queries[..|queries|] == queries;
    SortMembers(QueryBefore, kept);
    SortedStayDistinct(kept);
    SortedQueriesAreInOrder(kept);
    normalized := Some(Sort(QueryBefore, kept));
  }

  lemma {:induction false} DistinctByCount(queries: seq<Query>)
    ensures DistinctQueries(queries) <==> |set q | q in queries| == |queries|
    decreases |queries|
  {
    if queries != [] {
      var rest, last := queries[..|queries| - 1], queries[|queries| - 1];
      DistinctByCount(rest);
      assert queries == rest + [last];
      assert (set q | q in queries) == (set q | q in rest) + {last};
      SetIsNoLarger(rest);
      if last in rest {
        var k :| 0 <= k < |rest| && rest[k] == last;
        assert queries[k] == queries[|rest|];
      }
      assert DistinctQueries(queries) <==> DistinctQueries(rest) && last !in rest by {
        if DistinctQueries(queries) {
          forall i, j | 0 <= i < j < |rest| ensures rest[i] != rest[j] { assert queries[i] != queries[j]; }
        }
      }
    }
  }

  lemma SetIsNoLarger(queries: seq<Query>)
    ensures |set q | q in queries| <= |queries|
  {
    if queries != [] {
      var rest, last := queries[..|queries| - 1], queries[|queries| - 1];
      SetIsNoLarger(rest);
      assert queries == rest + [last];
      assert (set q | q in queries) == (set q | q in rest) + {last};
    }
  }

  lemma {:induction false} SortedStayDistinct(queries: seq<Query>)
    requires DistinctQueries(queries)
    ensures DistinctQueries(Sort(QueryBefore, queries))
  {
    SortMembers(QueryBefore, queries);
    DistinctByCount(queries);
    DistinctByCount(Sort(QueryBefore, queries));
    assert (set q | q in queries) == (set q | q in Sort(QueryBefore, queries));
  }

  /** The batch part of `fetch`; `None` is the unavailable result, given exactly when the first request
      fails. Whichever later requests fail, each query has the latest match of each advisory on the
      pages it received, and is complete exactly when its pages ended on one of them. */
  method FetchMatches(maxRounds: nat, world: World, queries: seq<Query>) returns (result: Option<Progress>)
    requires 0 < maxRounds && DistinctQueries(queries)
    ensures InRound(Start(queries), FirstPages(queries), 0)
    ensures result == Acquire(maxRounds, world, Start(queries), FirstPages(queries), 0)
    ensures forall chain, q :: FollowsChains(world, chain) && q in queries ==>
      var answered := AnsweredRounds(maxRounds, world, FirstPages(queries), 0);
      && (result == None <==> answered == 0)
      && (result.Some? ==> q in result.value.accumulators && Exact(maxRounds, answered, chain, q, result.value.accumulators[q]))
  {
    hide Acquire, Exact, FollowsChains, AnsweredRounds;
    var acquisition := new BatchAcquisition(maxRounds, world, queries);
    var unavailable := acquisition.AcquireBatchPages(FirstPages(queries), 0, false);
    result := if unavailable then None else Some(acquisition.State());
    forall chain, q | FollowsChains(world, chain) && q in queries
      ensures result == None <==> AnsweredRounds(maxRounds, world, FirstPages(queries), 0) == 0
      ensures result.Some? ==> q in result.value.accumulators
      ensures result.Some? ==> Exact(maxRounds, AnsweredRounds(maxRounds, world, FirstPages(queries), 0), chain, q,
        result.value.accumulators[q])
    {
      PaginationIsExact(maxRounds, world, chain, queries, q);
    }
  }
}
