/** The batched pagination of `osv/adapter.ts`: all open queries advance one page per round, matches
    accumulate per query, and a query drops out when its pages end or the safety bound is met. */
module OsvPagination {
  import opened Text

  datatype Query = Query(packageName: string, version: string)
  datatype Match = Match(id: string, modifiedAt: int)
  datatype Page = Page(matches: seq<Match>, next: Option<string>)

  /** The adapter's accumulator for one query. */
  datatype Accumulator = Accumulator(matches: map<string, Match>, complete: bool)

  datatype Pending = Pending(query: Query, token: Option<string>, round: nat)

  datatype Failure = PaginationIncomplete(query: Query) | PageFailed(code: string)

  /** The answer to one batch request; a malformed response is a failure with its own code. */
  datatype BatchReply = Failed(code: string) | Pages(pages: seq<Page>)

  type World = seq<Pending> -> BatchReply

  datatype Progress = Progress(accumulators: map<Query, Accumulator>, failures: seq<Failure>)

  const EMPTY := Accumulator(map[], true)

  /** The newest version of each advisory; on a tie the first one stays. */
  function Absorb(matches: map<string, Match>, found: seq<Match>): map<string, Match>
    decreases |found|
  {
    if found == [] then matches
    else
      var m := found[0];
      Absorb(if m.id !in matches || m.modifiedAt > matches[m.id].modifiedAt then matches[m.id := m] else matches,
        found[1..])
  }

  // ----- one round of the batch -----

  /** Whether the entry asks for another page. */
  predicate Continues(maxRounds: nat, entry: Pending, page: Page) {
    page.next.Some? && entry.round + 1 < maxRounds && page.next != entry.token
  }

  predicate GivesUp(maxRounds: nat, entry: Pending, page: Page) {
    page.next.Some? && !Continues(maxRounds, entry, page)
  }

  function Record(maxRounds: nat, p: Progress, entry: Pending, page: Page): Progress
    requires entry.query in p.accumulators
  {
    var before := p.accumulators[entry.query];
    Progress(
      p.accumulators[entry.query := Accumulator(Absorb(before.matches, page.matches), before.complete && !GivesUp(maxRounds, entry, page))],
      p.failures + (if GivesUp(maxRounds, entry, page) then [PaginationIncomplete(entry.query)] else []))
  }

  function RecordAll(maxRounds: nat, p: Progress, pending: seq<Pending>, pages: seq<Page>): (r: Progress)
    requires |pages| == |pending| && forall i :: 0 <= i < |pending| ==> pending[i].query in p.accumulators
    ensures r.accumulators.Keys == p.accumulators.Keys
    decreases |pending|
  {
    if pending == [] then p
    else RecordAll(maxRounds, Record(maxRounds, p, pending[0], pages[0]), pending[1..], pages[1..])
  }

  /** `q` asks for the page after `pages[i]`. */
  predicate Follows(maxRounds: nat, pending: seq<Pending>, pages: seq<Page>, i: int, q: Pending)
    requires |pages| == |pending|
  {
    0 <= i < |pending| && q == Pending(pending[i].query, pages[i].next, pending[i].round + 1) && Continues(maxRounds,
      pending[i], pages[i])
  }

  function NextPending(maxRounds: nat, pending: seq<Pending>, pages: seq<Page>): (r: seq<Pending>)
    requires |pages| == |pending|
    ensures forall q :: q in r ==> exists i :: Follows(maxRounds, pending, pages, i, q)
  {
    if pending == [] then []
    else
      var rest := NextPending(maxRounds, pending[1..], pages[1..]);
      var head := if Continues(maxRounds, pending[0], pages[0]) then [Pending(pending[0].query, pages[0].next, pending[0].round + 1)] else [];
      assert forall q :: q in head ==> Follows(maxRounds, pending, pages, 0, q);
      assert forall q :: q in rest ==> exists i :: Follows(maxRounds, pending, pages, i, q) by {
        forall q | q in rest ensures exists i :: Follows(maxRounds, pending, pages, i, q) {
          var i :| Follows(maxRounds, pending[1..], pages[1..], i, q);
          assert Follows(maxRounds, pending, pages, i + 1, q);
        }
      }
      head + rest
  }

  function Abandon(p: Progress, pending: seq<Pending>, code: string): Progress {
    Progress(
      map q | q in p.accumulators :: if exists i :: 0 <= i < |pending| && pending[i].query == q
        then p.accumulators[q].(complete := false) else p.accumulators[q],
      p.failures + [PageFailed(code)])
  }

  const MALFORMED := "osv_invalid_query_response"

  /** A response that does not answer every entry is malformed. */
  function ReplyTo(world: World, pending: seq<Pending>): (r: BatchReply)
    ensures r.Pages? ==> |r.pages| == |pending|
  {
    var reply := world(pending);
    if reply.Pages? && |reply.pages| != |pending| then Failed(MALFORMED) else reply
  }

  /** Every entry stands in round `round`, with an accumulator of its own. */
  predicate InRound(p: Progress, pending: seq<Pending>, round: nat) {
    && (forall i :: 0 <= i < |pending| ==> pending[i].round == round && pending[i].query in p.accumulators)
    && (forall i, j :: 0 <= i < j < |pending| ==> pending[i].query != pending[j].query)
  }

  lemma {:induction false} NextIsInRound(maxRounds: nat, p: Progress, pending: seq<Pending>, pages: seq<Page>,
      round: nat)
    requires |pages| == |pending| && InRound(p, pending, round)
    ensures InRound(p, NextPending(maxRounds, pending, pages), round + 1)
    decreases |pending|
  {
    if pending != [] {
      assert forall i :: 0 <= i < |pending[1..]| ==> pending[1..][i] == pending[i + 1];
      NextIsInRound(maxRounds, p, pending[1..], pages[1..], round);
      var rest := NextPending(maxRounds, pending[1..], pages[1..]);
      forall k | 0 <= k < |rest| ensures rest[k].query != pending[0].query {
        assert rest[k] in rest;
        var i :| Follows(maxRounds, pending[1..], pages[1..], i, rest[k]);
        assert pending[1..][i] == pending[i + 1];
      }
    }
  }

  /** `acquireBatchPages`: `None` is the unavailable result of a first request that failed. */
  function Acquire(maxRounds: nat, world: World, p: Progress, pending: seq<Pending>, round: nat): Option<Progress>
    requires InRound(p, pending, round) && round <= maxRounds && (pending != [] ==> round < maxRounds)
    decreases maxRounds - round
  {
    if pending == [] then Some(p)
    else match ReplyTo(world, pending)
      case Failed(code) => if round == 0 then None else Some(Abandon(p, pending, code))
      case Pages(pages) =>
        NextIsInRound(maxRounds, p, pending, pages, round);
        var next := NextPending(maxRounds, pending, pages);
        var p' := RecordAll(maxRounds, p, pending, pages);
        assert next != [] ==> round + 1 < maxRounds by { if next != [] { assert next[0] in next; } }
        Acquire(maxRounds, world, p', next, round + 1)
  }

  function Start(queries: seq<Query>): Progress {
    Progress(map q | q in queries :: EMPTY, [])
  }

  function FirstPages(queries: seq<Query>): (r: seq<Pending>)
    ensures |r| == |queries| && forall i :: 0 <= i < |r| ==> r[i] == Pending(queries[i], None, 0)
  {
    seq(|queries|, i requires 0 <= i < |queries| => Pending(queries[i], None, 0))
  }

  predicate DistinctQueries(queries: seq<Query>) {
    forall i, j :: 0 <= i < j < |queries| ==> queries[i] != queries[j]
  }

  // ----- which rounds are answered -----

  /** The round whose request failed, if one did; nothing is asked after it. */
  function FailedRound(maxRounds: nat, world: World, pending: seq<Pending>, round: nat): (r: Option<nat>)
    ensures r.Some? ==> round <= r.value < maxRounds
    decreases maxRounds - round
  {
    if pending == [] || round >= maxRounds then None
    else match ReplyTo(world, pending)
      case Failed(_) => Some(round)
      case Pages(pages) => FailedRound(maxRounds, world, NextPending(maxRounds, pending, pages), round + 1)
  }

  /** Requests are answered in the rounds before this one, and in no other. */
  function AnsweredRounds(maxRounds: nat, world: World, pending: seq<Pending>, round: nat): (r: nat)
    ensures r <= maxRounds
  {
    var failed := FailedRound(maxRounds, world, pending, round);
    if failed.Some? then failed.value else maxRounds
  }

  // ----- one query alone -----

  /** The page a query gets for a token. */
  type Chain = (Query, Option<string>) -> Page

  /** Paging one query by itself, when the requests of round `answered` and later fail. */
  function Alone(maxRounds: nat, answered: nat, chain: Chain, a: Accumulator, entry: Pending): Accumulator
    requires entry.round < maxRounds
    decreases maxRounds - entry.round
  {
    if entry.round >= answered then a.(complete := false)
    else
      var page := chain(entry.query, entry.token);
      var a' := Accumulator(Absorb(a.matches, page.matches), a.complete && !GivesUp(maxRounds, entry, page));
      if Continues(maxRounds, entry, page) then Alone(maxRounds, answered, chain, a', Pending(entry.query, page.next, entry.round + 1)) else a'
  }

  /** Any batch request may fail; one that is answered brings the pages of the entries' own chains. */
  ghost predicate FollowsChains(world: World, chain: Chain) {
    forall pending: seq<Pending> :: ReplyTo(world, pending).Pages? ==>
      forall i :: 0 <= i < |pending| ==> ReplyTo(world, pending).pages[i] == chain(pending[i].query, pending[i].token)
  }

  lemma {:induction false} RecordedAt(maxRounds: nat, p: Progress, pending: seq<Pending>, pages: seq<Page>, q: Query)
    requires |pages| == |pending| && forall i :: 0 <= i < |pending| ==> pending[i].query in p.accumulators
    requires q in p.accumulators && forall i, j :: 0 <= i < j < |pending| ==> pending[i].query != pending[j].query
    ensures (forall i :: 0 <= i < |pending| ==> pending[i].query != q) ==>
      RecordAll(maxRounds, p, pending, pages).accumulators[q] == p.accumulators[q]
    ensures forall i :: 0 <= i < |pending| && pending[i].query == q ==>
      RecordAll(maxRounds, p, pending, pages).accumulators[q] == Record(maxRounds, p, pending[i], pages[i]).accumulators[q]
    decreases |pending|
  {
    if pending != [] {
      assert forall i :: 0 <= i < |pending[1..]| ==> pending[1..][i] == pending[i + 1] && pages[1..][i] == pages[i + 1];
      var p' := Record(maxRounds, p, pending[0], pages[0]);
      RecordedAt(maxRounds, p', pending[1..], pages[1..], q);
      forall i | 0 <= i < |pending| && pending[i].query == q
        ensures RecordAll(maxRounds, p, pending, pages).accumulators[q]
          == Record(maxRounds, p, pending[i], pages[i]).accumulators[q]
      {
        if i == 0 {
          forall j | 0 <= j < |pending[1..]| ensures pending[1..][j].query != q { assert pending[0].query != pending[j + 1].query; }
        } else {
          assert pending[0].query != pending[i].query;
          assert pending[1..][i - 1] == pending[i];
        }
      }
    }
  }

  lemma {:induction false} NextHolds(maxRounds: nat, pending: seq<Pending>, pages: seq<Page>, i: nat)
    requires |pages| == |pending| && i < |pending| && Continues(maxRounds, pending[i], pages[i])
    ensures Pending(pending[i].query, pages[i].next, pending[i].round + 1) in NextPending(maxRounds, pending, pages)
    decreases |pending|
  {
    if i > 0 {
      assert pending[1..][i - 1] == pending[i] && pages[1..][i - 1] == pages[i];
      NextHolds(maxRounds, pending[1..], pages[1..], i - 1);
    }
  }

  /** What the next round starts from. */
  predicate Ready(maxRounds: nat, p: Progress, pending: seq<Pending>, round: nat) {
    InRound(p, pending, round) && round <= maxRounds && (pending != [] ==> round < maxRounds)
  }

  lemma {:induction false} NextIsReady(maxRounds: nat, world: World, chain: Chain, p: Progress, pending: seq<Pending>,
      round: nat)
    requires Ready(maxRounds, p, pending, round) && pending != [] && FollowsChains(world, chain) && ReplyTo(world, pending).Pages?
    ensures var pages := ReplyTo(world, pending).pages;
      var next, p' := NextPending(maxRounds, pending, pages), RecordAll(maxRounds, p, pending, pages);
      && (forall i :: 0 <= i < |pending| ==> pages[i] == chain(pending[i].query, pending[i].token))
      && Ready(maxRounds, p', next, round + 1)
      && Acquire(maxRounds, world, p, pending, round) == Acquire(maxRounds, world, p', next, round + 1)
      && AnsweredRounds(maxRounds, world, pending, round) == AnsweredRounds(maxRounds, world, next, round + 1)
  {
    hide NextPending, RecordAll, Continues;
    var pages := ReplyTo(world, pending).pages;
    var next := NextPending(maxRounds, pending, pages);
    NextIsInRound(maxRounds, p, pending, pages, round);
    if next != [] {
      assert next[0] in next;
      var i :| Follows(maxRounds, pending, pages, i, next[0]);
      ContinuesBelow(maxRounds, pending[i], pages[i]);
    }
  }

  lemma ContinuesBelow(maxRounds: nat, entry: Pending, page: Page)
    requires Continues(maxRounds, entry, page)
    ensures entry.round + 1 < maxRounds
  {
  }

  /** A query that has dropped out is left alone, whatever fails later. */
  lemma {:induction false} BatchLeaves(maxRounds: nat, world: World, chain: Chain, p: Progress, pending: seq<Pending>,
      round: nat, q: Query)
    requires Ready(maxRounds, p, pending, round) && round > 0 && FollowsChains(world, chain)
    requires q in p.accumulators && forall i :: 0 <= i < |pending| ==> pending[i].query != q
    ensures Acquire(maxRounds, world, p, pending, round).Some? && q in Acquire(maxRounds, world, p, pending, round).value.accumulators
    ensures Acquire(maxRounds, world, p, pending, round).value.accumulators[q] == p.accumulators[q]
    decreases maxRounds - round
  {
    hide Absorb, Record, Continues, FollowsChains, ReplyTo, NextPending;
    if pending == [] || ReplyTo(world, pending).Failed? { return; }
    NextIsReady(maxRounds, world, chain, p, pending, round);
    var pages := ReplyTo(world, pending).pages;
    var next, p' := NextPending(maxRounds, pending, pages), RecordAll(maxRounds, p, pending, pages);
    RecordedAt(maxRounds, p, pending, pages, q);
    forall k | 0 <= k < |next| ensures next[k].query != q {
      assert next[k] in next;
      var i :| Follows(maxRounds, pending, pages, i, next[k]);
    }
    BatchLeaves(maxRounds, world, chain, p', next, round + 1, q);
  }

  /** The batch gives each query what paging it alone gives, up to the round whose request fails. */
  lemma {:induction false} BatchIsAlone(maxRounds: nat, world: World, chain: Chain, p: Progress, pending: seq<Pending>,
      round: nat, i: nat)
    requires Ready(maxRounds, p, pending, round) && FollowsChains(world, chain) && i < |pending|
    ensures var q := pending[i].query;
      var r := Acquire(maxRounds, world, p, pending, round);
      var answered := AnsweredRounds(maxRounds, world, pending, round);
      && (r.None? <==> answered == 0)
      && (r.Some? ==> q in r.value.accumulators && r.value.accumulators[q] == Alone(maxRounds, answered, chain, p.accumulators[q], pending[i]))
    decreases maxRounds - round
  {
    hide Absorb, FollowsChains, ReplyTo, NextPending;
    var q := pending[i].query;
    if ReplyTo(world, pending).Failed? { return; }
    hide Acquire, AnsweredRounds;
    NextIsReady(maxRounds, world, chain, p, pending, round);
    AnsweredFrom(maxRounds, world, pending, round);
    var pages := ReplyTo(world, pending).pages;
    var next, p' := NextPending(maxRounds, pending, pages), RecordAll(maxRounds, p, pending, pages);
    RecordedAt(maxRounds, p, pending, pages, q);
    if Continues(maxRounds, pending[i], pages[i]) {
      NextHolds(maxRounds, pending, pages, i);
      var k :| 0 <= k < |next| && next[k] == Pending(q, pages[i].next, round + 1);
      BatchIsAlone(maxRounds, world, chain, p', next, round + 1, k);
    } else {
      forall k | 0 <= k < |next| ensures next[k].query != q { OthersContinue(maxRounds, pending, pages, round, i, next[k]); }
      BatchLeaves(maxRounds, world, chain, p', next, round + 1, q);
    }
  }

  lemma AnsweredFrom(maxRounds: nat, world: World, pending: seq<Pending>, round: nat)
    requires pending != [] && round < maxRounds && ReplyTo(world, pending).Pages?
    ensures AnsweredRounds(maxRounds, world, pending, round) > round
  {
  }

  lemma OthersContinue(maxRounds: nat, pending: seq<Pending>, pages: seq<Page>, round: nat, i: nat, entry: Pending)
    requires |pages| == |pending| && i < |pending| && !Continues(maxRounds, pending[i], pages[i])
    requires forall a, b :: 0 <= a < b < |pending| ==> pending[a].query != pending[b].query
    requires entry in NextPending(maxRounds, pending, pages)
    ensures entry.query != pending[i].query
  {
    var j :| Follows(maxRounds, pending, pages, j, entry);
    assert j != i;
  }

  // ----- when a query is complete -----

  /** The token of page `k`, if the chain reaches it. */
  function TokenAt(chain: Chain, q: Query, k: nat): Option<Option<string>> {
    if k == 0 then Some(None)
    else
      var before := TokenAt(chain, q, k - 1);
      if before == None then None
      else
        var next := chain(q, before.value).next;
        if next == None then None else Some(next)
  }

  /** Page `k` exists and is the last one. */
  predicate EndsAt(chain: Chain, q: Query, k: nat) {
    TokenAt(chain, q, k).Some? && chain(q, TokenAt(chain, q, k).value).next == None
  }

  /** A token that repeats at once repeats for ever. */
  lemma {:induction false} RepeatedTokenNeverEnds(chain: Chain, q: Query, k: nat, later: nat)
    requires TokenAt(chain, q, k).Some? && TokenAt(chain, q, k + 1) == TokenAt(chain, q, k) && later >= k
    ensures TokenAt(chain, q, later) == TokenAt(chain, q, k) && !EndsAt(chain, q, later)
    decreases later
  {
    if later > k { RepeatedTokenNeverEnds(chain, q, k, later - 1); }
    assert TokenAt(chain, q, k + 1) == Some(chain(q, TokenAt(chain, q, k).value).next);
  }

  lemma {:induction false} AloneIsComplete(maxRounds: nat, answered: nat, chain: Chain, a: Accumulator, q: Query,
      k: nat, token: Option<string>)
    requires k < maxRounds && TokenAt(chain, q, k) == Some(token) && a.complete
    ensures Alone(maxRounds, answered, chain, a, Pending(q, token, k)).complete <==> exists n :: k <= n < maxRounds && n < answered && EndsAt(chain, q, n)
    decreases maxRounds - k
  {
    hide Absorb;
    if k >= answered { return; }
    var entry := Pending(q, token, k);
    var page := chain(q, token);
    if page.next == None {
      assert EndsAt(chain, q, k);
    } else {
      assert TokenAt(chain, q, k + 1) == Some(page.next);
      assert !EndsAt(chain, q, k);
      if Continues(maxRounds, entry, page) {
        AloneIsComplete(maxRounds, answered, chain, Accumulator(Absorb(a.matches, page.matches), true), q, k + 1,
          page.next);
      } else if page.next == token {
        forall n | k <= n < maxRounds ensures !EndsAt(chain, q, n) { RepeatedTokenNeverEnds(chain, q, k, n); }
      }
    }
  }

  // ----- which match of an advisory is kept -----

  /** `m` is the newest of the found matches of its advisory, and the first of the newest. */
  ghost predicate KeptMatch(found: seq<Match>, m: Match) {
    exists i :: KeptAt(found, m, i)
  }

  predicate KeptAt(found: seq<Match>, m: Match, i: int) {
    && 0 <= i < |found| && found[i] == m
    && (forall j :: 0 <= j < |found| && found[j].id == m.id ==> found[j].modifiedAt <= m.modifiedAt)
    && (forall j :: 0 <= j < i && found[j].id == m.id ==> found[j].modifiedAt < m.modifiedAt)
  }

  ghost predicate Latest(found: seq<Match>, matches: map<string, Match>) {
    && (forall m :: m in found ==> m.id in matches)
    && (forall id :: id in matches ==> matches[id].id == id && KeptMatch(found, matches[id]))
  }

  lemma {:induction false} AbsorbOne(found: seq<Match>, matches: map<string, Match>, m: Match)
    requires Latest(found, matches)
    ensures Latest(found + [m], if m.id !in matches || m.modifiedAt > matches[m.id].modifiedAt then matches[m.id := m] else matches)
  {
    hide KeptMatch;
    var newer := m.id !in matches || m.modifiedAt > matches[m.id].modifiedAt;
    var kept := if newer then matches[m.id := m] else matches;
    if newer { NewestIsKept(found, matches, m); }
    forall id | id in kept ensures kept[id].id == id && KeptMatch(found + [m], kept[id]) {
      if !(newer && id == m.id) { OldStaysKept(found, matches[id], m); }
    }
  }

  lemma {:induction false} NewestIsKept(found: seq<Match>, matches: map<string, Match>, m: Match)
    requires Latest(found, matches) && (m.id !in matches || m.modifiedAt > matches[m.id].modifiedAt)
    ensures KeptMatch(found + [m], m)
  {
    if m.id in matches { var i :| KeptAt(found, matches[m.id], i); }
    forall j | 0 <= j < |found| && found[j].id == m.id ensures found[j].modifiedAt < m.modifiedAt { assert found[j] in found; }
    assert KeptAt(found + [m], m, |found|);
  }

  lemma {:induction false} OldStaysKept(found: seq<Match>, kept: Match, m: Match)
    requires KeptMatch(found, kept) && (m.id == kept.id ==> m.modifiedAt <= kept.modifiedAt)
    ensures KeptMatch(found + [m], kept)
  {
    var i :| KeptAt(found, kept, i);
    assert KeptAt(found + [m], kept, i);
  }

  lemma {:induction false} AbsorbKeepsLatest(found: seq<Match>, matches: map<string, Match>, more: seq<Match>)
    requires Latest(found, matches)
    ensures Latest(found + more, Absorb(matches, more))
    decreases |more|
  {
    hide Latest;
    if more == [] { assert found + more == found; }
    else {
      var m := more[0];
      AbsorbOne(found, matches, m);
      AbsorbKeepsLatest(found + [m], if m.id !in matches || m.modifiedAt > matches[m.id].modifiedAt then matches[m.id := m] else matches, more[1..]);
      assert found + [m] + more[1..] == found + more;
    }
  }

  /** All matches on the pages that the query receives, in order. */
  function PagesRead(maxRounds: nat, answered: nat, chain: Chain, entry: Pending): seq<Match>
    requires entry.round < maxRounds
    decreases maxRounds - entry.round
  {
    if entry.round >= answered then []
    else
      var page := chain(entry.query, entry.token);
      page.matches
      + (if Continues(maxRounds, entry, page)
         then PagesRead(maxRounds, answered, chain, Pending(entry.query, page.next, entry.round + 1)) else [])
  }

  lemma {:induction false} AloneKeepsLatest(maxRounds: nat, answered: nat, chain: Chain, a: Accumulator,
      entry: Pending, found: seq<Match>)
    requires entry.round < maxRounds && Latest(found, a.matches)
    ensures Latest(found + PagesRead(maxRounds, answered, chain, entry),
      Alone(maxRounds, answered, chain, a, entry).matches)
    decreases maxRounds - entry.round
  {
    hide Latest;
    if entry.round >= answered {
      assert found + [] == found;
      return;
    }
    var page := chain(entry.query, entry.token);
    AbsorbKeepsLatest(found, a.matches, page.matches);
    if Continues(maxRounds, entry, page) {
      var next := Pending(entry.query, page.next, entry.round + 1);
      var a' := Accumulator(Absorb(a.matches, page.matches), a.complete && !GivesUp(maxRounds, entry, page));
      AloneKeepsLatest(maxRounds, answered, chain, a', next, found + page.matches);
      assert found + page.matches + PagesRead(maxRounds, answered, chain, next) == found + PagesRead(maxRounds,
        answered, chain, entry);
    } else {
      assert page.matches + [] == page.matches;
    }
  }

  /** What the batch promises for one query, whichever requests fail: its matches are the latest of
      each advisory on the pages it received, and it is complete exactly when its chain of pages ends
      on one of them. */
  ghost predicate Exact(maxRounds: nat, answered: nat, chain: Chain, q: Query, a: Accumulator)
    requires 0 < maxRounds
  {
    && Latest(PagesRead(maxRounds, answered, chain, Pending(q, None, 0)), a.matches)
    && (a.complete <==> exists n :: 0 <= n < maxRounds && n < answered && EndsAt(chain, q, n))
  }

  /** The batch as a whole: it is unavailable exactly when the first request fails, it ends within the
      round limit, and every query's account is exact. */
  lemma {:induction false} PaginationIsExact(maxRounds: nat, world: World, chain: Chain, queries: seq<Query>, q: Query)
    requires 0 < maxRounds && DistinctQueries(queries) && q in queries && FollowsChains(world, chain)
    ensures InRound(Start(queries), FirstPages(queries), 0)
    ensures var r := Acquire(maxRounds, world, Start(queries), FirstPages(queries), 0);
      var answered := AnsweredRounds(maxRounds, world, FirstPages(queries), 0);
      && (r.None? <==> answered == 0)
      && (r.Some? ==> q in r.value.accumulators && Exact(maxRounds, answered, chain, q, r.value.accumulators[q]))
  {
    hide Acquire, Alone, Absorb, Latest, PagesRead, AnsweredRounds;
    var pending := FirstPages(queries);
    var answered := AnsweredRounds(maxRounds, world, pending, 0);
    var i :| 0 <= i < |queries| && queries[i] == q;
    var first := Pending(q, None, 0);
    assert pending[i] == first;
    BatchIsAlone(maxRounds, world, chain, Start(queries), pending, 0, i);
    NothingFoundYet();
    AloneKeepsLatest(maxRounds, answered, chain, EMPTY, first, []);
    assert [] + PagesRead(maxRounds, answered, chain, first) == PagesRead(maxRounds, answered, chain, first);
    AloneIsComplete(maxRounds, answered, chain, EMPTY, q, 0, None);
  }

  lemma NothingFoundYet()
    ensures Latest([], map[])
  {
  }

  /** When no request fails, completeness depends on the chain and the limit only. */
  lemma {:induction false} EveryRoundIsAnswered(maxRounds: nat, world: World, pending: seq<Pending>, round: nat)
    requires forall asked :: ReplyTo(world, asked).Pages?
    ensures AnsweredRounds(maxRounds, world, pending, round) == maxRounds
    decreases maxRounds - round
  {
    if pending != [] && round < maxRounds {
      EveryRoundIsAnswered(maxRounds, world, NextPending(maxRounds, pending, ReplyTo(world, pending).pages), round + 1);
    }
  }
}
