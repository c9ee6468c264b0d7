/** The configuration selector is obeyed: after every round the paths it asks for come next, in the order
    it names them, unless they were dealt with before, are not offered, or find no room; and the file
    cap keeps the preferred candidates. */
module AcquisitionSelection {
  import opened Text
  import opened RepositoryPaths
  import opened AcquisitionModel
  import opened AcquisitionSafety

  // ----- one selection -----

  /** `some` is what remains of `all` when some elements are left out. */
  predicate Subsequence(some: seq<string>, all: seq<string>)
    decreases |all|
  {
    if all == [] then some == []
    else
      || Subsequence(some, all[..|all| - 1])
      || (some != [] && some[|some| - 1] == all[|all| - 1] && Subsequence(some[..|some| - 1], all[..|all| - 1]))
  }

  /** The cap is reached and no source candidate is left to give way. */
  predicate NoRoomLeft(limits: Limits, retained: seq<Candidate>, next: nat, size: nat)
    requires next <= |retained|
  {
    size >= limits.maxFiles && forall c :: c in retained[next..] ==> !c.kind.Source?
  }

  /** The first `m` waiting candidates are what the selection asks for. */
  predicate ComeNext(limits: Limits, available: seq<Entry>, s: State, selected: seq<string>, m: nat) {
    && s.next + m <= |s.retained|
    && Subsequence(Paths(s.retained[s.next..s.next + m]), selected)
    && (forall c :: c in s.retained[s.next + m..] ==> c.entry.path !in selected)
    && (forall p :: p in selected && p in EntryPaths(available) ==>
          || p in Paths(s.retained[..s.next + m])
          || (p in s.ledger.overBudget && NoRoomLeft(limits, s.retained, s.next + m, |s.retained|)))
  }

  ghost predicate Obeyed(limits: Limits, available: seq<Entry>, s: State, selected: seq<string>) {
    exists m: nat :: ComeNext(limits, available, s, selected, m)
  }

  /** The same, while the selected candidates still stand aside. */
  predicate Placing(limits: Limits, available: seq<Entry>, st: State, aside: seq<Candidate>, done: seq<string>)
    requires st.next <= |st.retained|
  {
    && Subsequence(Paths(aside), done)
    && (forall c :: c in st.retained[st.next..] ==> c.entry.path !in done)
    && (forall p :: p in done && p in EntryPaths(available) ==> Placed(limits, st, aside, p))
  }

  predicate Placed(limits: Limits, st: State, aside: seq<Candidate>, p: string)
    requires st.next <= |st.retained|
  {
    || p in Paths(aside) || p in Paths(st.retained[..st.next])
    || (p in st.ledger.overBudget && NoRoomLeft(limits, st.retained, st.next, |st.retained| + |aside|))
  }

  lemma SubsequenceSkips(some: seq<string>, all: seq<string>, p: string)
    requires Subsequence(some, all)
    ensures Subsequence(some, all + [p])
  {
    assert (all + [p])[..|all + [p]| - 1] == all;
  }

  lemma SubsequenceGrows(some: seq<string>, all: seq<string>, p: string)
    requires Subsequence(some, all)
    ensures Subsequence(some + [p], all + [p])
  {
    assert (all + [p])[..|all + [p]| - 1] == all && (some + [p])[..|some + [p]| - 1] == some;
  }

  // ----- what the searches miss is not there -----

  lemma {:induction false} NotPending(retained: seq<Candidate>, from: nat, path: string)
    requires FindPending(retained, from, path) == None
    ensures forall i :: from <= i < |retained| ==> retained[i].entry.path != path
    decreases |retained| - from
  {
    if from < |retained| { NotPending(retained, from + 1, path); }
  }

  lemma {:induction false} NotReplaceable(retained: seq<Candidate>, from: nat, limit: nat)
    requires limit <= |retained| && FindReplaceable(retained, from, limit) == None
    ensures forall i :: from <= i < limit ==> !retained[i].kind.Source?
    decreases limit
  {
    if from < limit { NotReplaceable(retained, from, limit - 1); }
  }

  lemma {:induction false} NotOffered(available: seq<Entry>, path: string)
    requires FindEntry(available, path) == None
    ensures (forall i :: 0 <= i < |available| ==> available[i].path != path) && path !in EntryPaths(available)
    decreases |available|
  {
    if available != [] {
      NotOffered(available[1..], path);
      forall i | 0 <= i < |available| ensures available[i].path != path {
        if i > 0 { assert available[i] == available[1..][i - 1]; }
      }
    }
  }

  lemma InBag(candidates: seq<Candidate>, p: string)
    ensures Bag(candidates)[p] > 0 <==> p in Paths(candidates)
  {
    assert p in multiset(Paths(candidates)) <==> p in Paths(candidates);
  }

  lemma InPaths(candidates: seq<Candidate>, p: string)
    ensures p in Paths(candidates) <==> exists c :: c in candidates && c.entry.path == p
  {
    if p in Paths(candidates) {
      var i :| 0 <= i < |candidates| && Paths(candidates)[i] == p;
      assert candidates[i] in candidates;
    }
    if c :| c in candidates && c.entry.path == p {
      var i :| 0 <= i < |candidates| && candidates[i] == c;
      assert Paths(candidates)[i] == p;
    }
  }

  // ----- each step of the selection -----

  /** A path that no waiting candidate carries has been placed. */
  lemma {:induction false} DoneElsewhere(limits: Limits, available: seq<Entry>, st: State, aside: seq<Candidate>,
      done: seq<string>, path: string)
    requires st.next <= |st.retained| && Unique(st, aside, path) && Placing(limits, available, st, aside, done)
    requires forall i :: st.next <= i < |st.retained| ==> st.retained[i].entry.path != path
    requires path in st.queued || path !in EntryPaths(available) || Placed(limits, st, aside, path)
    ensures Placing(limits, available, st, aside, done + [path])
  {
    hide Placed, NoRoomLeft;
    SubsequenceSkips(Paths(aside), done, path);
    if path in st.queued {
      assert st.retained == st.retained[..st.next] + st.retained[st.next..];
      PathsAppend(st.retained[..st.next], st.retained[st.next..]);
      InBag(aside, path);
      InBag(st.retained[..st.next], path);
      InBag(st.retained[st.next..], path);
      InPaths(st.retained[st.next..], path);
      AlreadyPlaced(limits, st, aside, path);
    }
  }

  lemma AlreadyPlaced(limits: Limits, st: State, aside: seq<Candidate>, p: string)
    requires st.next <= |st.retained| && (p in Paths(aside) || p in Paths(st.retained[..st.next]))
    ensures Placed(limits, st, aside, p)
  {
  }

  /** One candidate joins those standing aside; the waiting ones can only become fewer. */
  lemma {:induction false} OneMoreAside(limits: Limits, available: seq<Entry>, st: State, st': State,
      aside: seq<Candidate>, added: Candidate, done: seq<string>)
    requires st.next == st'.next <= |st.retained| && st.next <= |st'.retained|
    requires st'.retained[..st.next] == st.retained[..st.next]
    requires forall c :: c in st'.retained[st.next..] ==>
      c in st.retained[st.next..] && c.entry.path != added.entry.path
    requires |st'.retained| + 1 >= |st.retained|
    requires forall p :: p in st.ledger.overBudget ==> p in st'.ledger.overBudget
    requires Placing(limits, available, st, aside, done)
    ensures Placing(limits, available, st', aside + [added], done + [added.entry.path])
  {
    var aside' := aside + [added];
    assert Paths(aside') == Paths(aside) + [added.entry.path];
    SubsequenceGrows(Paths(aside), done, added.entry.path);
    forall p | p in done + [added.entry.path] && p in EntryPaths(available) ensures Placed(limits, st', aside', p) {
      if p in done { assert Placed(limits, st, aside, p); }
    }
  }

  lemma {:induction false} RemovedAt(st: State, i: nat, aside: seq<Candidate>)
    requires st.next <= i < |st.retained| && Unique(st, aside, st.retained[i].entry.path)
    ensures var left := RemoveAt(st.retained, i);
      && left[..st.next] == st.retained[..st.next] && |left| == |st.retained| - 1
      && forall c :: c in left[st.next..] ==> c in st.retained[st.next..] && c.entry.path != st.retained[i].entry.path
  {
    var left, p := RemoveAt(st.retained, i), st.retained[i].entry.path;
    BagSplit(st.retained, i, p);
    InBag(left, p);
    forall c | c in left[st.next..] ensures c in st.retained[st.next..] && c.entry.path != p {
      assert c in left;
      InPaths(left, p);
    }
  }

  lemma {:induction false} SelectObeys(limits: Limits, available: seq<Entry>, st: State, selected: seq<string>,
      aside: seq<Candidate>, turnedAway: multiset<string>, done: seq<string>)
    requires Inv(limits, st, [], aside, turnedAway) && Placing(limits, available, st, aside, done)
    ensures Obeyed(limits, available, Select(limits, available, st, selected, aside), done + selected)
    decreases |selected|, 0
  {
    hide Inv, Placing, Obeyed, FindPending, FindReplaceable, FindEntry;
    InvGives(limits, st, aside, turnedAway);
    if selected == [] {
      assert done + selected == done;
      PlacedComeNext(limits, available, st, aside, done);
      return;
    }
    var path, rest := selected[0], selected[1..];
    assert done + selected == (done + [path]) + rest;
    assert Unique(st, aside, path);
    if path in st.queued {
      var i := FindPending(st.retained, st.next, path);
      if i.Some? {
        var st' := st.(retained := RemoveAt(st.retained, i.value));
        MoveKeeps(limits, st, i.value, aside, turnedAway);
        RemovedAt(st, i.value, aside);
        OneMoreAside(limits, available, st, st', aside, st.retained[i.value], done);
        SelectObeys(limits, available, st', rest, aside + [st.retained[i.value]], turnedAway, done + [path]);
      } else {
        NotPending(st.retained, st.next, path);
        DoneElsewhere(limits, available, st, aside, done, path);
        SelectObeys(limits, available, st, rest, aside, turnedAway, done + [path]);
      }
      return;
    }
    NotRetained(st, aside, path);
    var entry := FindEntry(available, path);
    if entry.None? {
      NotOffered(available, path);
      DoneElsewhere(limits, available, st, aside, done, path);
      SelectObeys(limits, available, st, rest, aside, turnedAway, done + [path]);
    } else if |st.retained| + |aside| >= limits.maxFiles {
      FullObeys(limits, available, st, entry.value, rest, aside, turnedAway, done);
    } else {
      var added := Candidate(entry.value, Config);
      var st' := st.(queued := st.queued + {path});
      AddKeeps(limits, st, added, aside, turnedAway);
      OneMoreAside(limits, available, st, st', aside, added, done);
      SelectObeys(limits, available, st', rest, aside + [added], turnedAway, done + [path]);
    }
  }

  lemma InvGives(limits: Limits, st: State, aside: seq<Candidate>, turnedAway: multiset<string>)
    requires Inv(limits, st, [], aside, turnedAway)
    ensures st.next <= |st.retained| && st.requests <= limits.maxRequests && forall p :: Unique(st, aside, p)
  {
  }

  lemma NotRetained(st: State, aside: seq<Candidate>, path: string)
    requires st.next <= |st.retained| && Unique(st, aside, path) && path !in st.queued
    ensures forall i :: 0 <= i < |st.retained| ==> st.retained[i].entry.path != path
  {
    InBag(st.retained, path);
    forall i | 0 <= i < |st.retained|
      ensures st.retained[i].entry.path != path
    {
      assert Paths(st.retained)[i] in Paths(st.retained);
    }
  }

  /** The cap is reached: the last waiting source candidate gives way, or the path is turned away. */
  lemma {:induction false} FullObeys(limits: Limits, available: seq<Entry>, st: State, entry: Entry, rest: seq<string>,
      aside: seq<Candidate>, turnedAway: multiset<string>, done: seq<string>)
    requires Inv(limits, st, [], aside, turnedAway) && Placing(limits, available, st, aside, done)
    requires entry.path !in st.queued && |st.retained| + |aside| >= limits.maxFiles
    requires FindEntry(available, entry.path) == Some(entry)
    ensures Obeyed(limits, available, Select(limits, available, st, [entry.path] + rest, aside),
      done + [entry.path] + rest)
    decreases |rest|, 1
  {
    hide Inv, Placing, Obeyed, FindPending, FindReplaceable, FindEntry;
    InvGives(limits, st, aside, turnedAway);
    var path := entry.path;
    assert ([path] + rest)[0] == path && ([path] + rest)[1..] == rest;
    assert Unique(st, aside, path);
    NotRetained(st, aside, path);
    var i := FindReplaceable(st.retained, st.next, |st.retained|);
    if i.None? {
      NotReplaceable(st.retained, st.next, |st.retained|);
      var st' := st.(ledger := OverBudgetPath(st.ledger, path));
      RefuseKeeps(limits, st, path, aside, turnedAway);
      RefusedStaysPlacing(limits, available, st, aside, path, done);
      InvGives(limits, st', aside, turnedAway + multiset{path});
      DoneElsewhere(limits, available, st', aside, done, path);
      SelectObeys(limits, available, st', rest, aside, turnedAway + multiset{path}, done + [path]);
    } else {
      var replaced, added := st.retained[i.value].entry.path, Candidate(entry, Config);
      var refused := st.(ledger := OverBudgetPath(st.ledger, replaced));
      var dropped := refused.(retained := RemoveAt(st.retained, i.value), queued := st.queued - {replaced});
      var st' := dropped.(queued := dropped.queued + {path});
      RefuseKeeps(limits, st, replaced, aside, turnedAway);
      DropKeeps(limits, refused, i.value, aside, turnedAway + multiset{replaced});
      AddKeeps(limits, dropped, added, aside, turnedAway + multiset{replaced});
      assert Unique(st, aside, replaced);
      RemovedAt(st, i.value, aside);
      OneMoreAside(limits, available, st, st', aside, added, done);
      SelectObeys(limits, available, st', rest, aside + [added], turnedAway + multiset{replaced}, done + [path]);
    }
  }

  lemma RefusedStaysPlacing(limits: Limits, available: seq<Entry>, st: State, aside: seq<Candidate>, path: string,
      done: seq<string>)
    requires st.next <= |st.retained| && Placing(limits, available, st, aside, done)
    requires |st.retained| + |aside| >= limits.maxFiles
    requires forall i :: st.next <= i < |st.retained| ==> !st.retained[i].kind.Source?
    ensures var st' := st.(ledger := OverBudgetPath(st.ledger, path));
      Placing(limits, available, st', aside, done) && Placed(limits, st', aside, path)
  {
    var st' := st.(ledger := OverBudgetPath(st.ledger, path));
    forall p | p in done && p in EntryPaths(available) ensures Placed(limits, st', aside, p) {
      assert Placed(limits, st, aside, p);
    }
  }

  /** Those standing aside are put in front of the waiting ones. */
  lemma {:induction false} PlacedComeNext(limits: Limits, available: seq<Entry>, st: State, aside: seq<Candidate>,
      done: seq<string>)
    requires st.next <= |st.retained| && Placing(limits, available, st, aside, done)
    ensures Obeyed(limits, available, Select(limits, available, st, [], aside), done)
  {
    var s := Select(limits, available, st, [], aside);
    var before, after := st.retained[..st.next], st.retained[st.next..];
    assert s.retained == before + aside + after;
    assert s.retained[s.next..s.next + |aside|] == aside && s.retained[s.next + |aside|..] == after;
    assert s.retained[..s.next + |aside|] == before + aside;
    PathsAppend(before, aside);
    forall p | p in done && p in EntryPaths(available)
      ensures p in Paths(s.retained[..s.next + |aside|])
        || (p in s.ledger.overBudget && NoRoomLeft(limits, s.retained, s.next + |aside|, |s.retained|))
    {
      assert Placed(limits, st, aside, p);
    }
    assert ComeNext(limits, available, s, done, |aside|);
  }

  /** A configuration blob of the tree that a selector may ask for. */
  predicate Selectable(e: Entry) {
    && e.entryType == BlobEntry && e.mode != "120000" && IsCanonicalPath(e.path) && !IsIgnoredPath(e.path)
    && IsConfigurationCandidatePath(e.path)
  }

  /** The selector is offered exactly those. */
  lemma {:induction false} OffersTheSelectable(entries: seq<Entry>)
    ensures forall e :: e in Available(entries) <==> e in entries && Selectable(e)
    decreases |entries|
  {
    hide IsCanonicalPath, IsIgnoredPath, IsConfigurationCandidatePath;
    if entries == [] { return; }
    OffersTheSelectable(entries[1..]);
    assert forall e :: e in entries <==> e == entries[0] || e in entries[1..];
  }

  /** After every round the selector's answer, at most 128 paths of it, is what the acquisition turns to
      next; an offered path that is not, was dealt with before or is reported as over budget with the
      cap reached and nothing left to give way. */
  lemma {:induction false} SelectorIsObeyed(limits: Limits, world: World, selector: Selector, available: seq<Entry>,
      st: State, turnedAway: multiset<string>)
    requires Inv(limits, st, [], [], turnedAway) && st.next < |st.retained|
    requires Round(limits, world, Some(selector), available, st).Some?
    ensures var s := Round(limits, world, Some(selector), available, st).value;
      var answer := selector(s.ledger.files, EntryPaths(available), s.next);
      Obeyed(limits, available, s, if |answer| <= 128 then answer else answer[..128])
  {
    hide Inv, Obeyed, Placing, Select, FormBatch, RetainBatch, FetchAll;
    var formed := FormBatch(limits, st, [], [], 0);
    InvGives(limits, st, [], turnedAway);
    FormBatchPlaces(limits, st, [], [], 0);
    FormBatchKeeps(limits, st, [], [], 0, turnedAway);
    FetchAllCounts(limits, world, formed.st.requests, formed.pending);
    var (replies, requests) := FetchAll(limits, world, formed.st.requests, formed.pending);
    var fetched := formed.st.(requests := requests);
    CountingRequestsKeeps(limits, formed.st, formed.batch, requests, turnedAway);
    RetainBatchKeeps(limits, fetched, formed.batch, replies, turnedAway);
    var s := RetainBatch(limits, fetched, formed.batch, replies).value;
    var answer := Take(selector(s.ledger.files, EntryPaths(available), s.next), SELECTION_SIZE);
    var s' := Select(limits, available, s, answer, []);
    assert Round(limits, world, Some(selector), available, st) == Some(s');
    NothingAside(limits, available, s, turnedAway);
    SelectObeys(limits, available, s, answer, [], turnedAway, []);
    assert [] + answer == answer;
    SelectKeepsFiles(limits, available, s, answer, []);
    var whole := selector(s.ledger.files, EntryPaths(available), s.next);
    assert |whole| == 128 ==> whole[..128] == whole;
  }

  lemma NothingAside(limits: Limits, available: seq<Entry>, s: State, turnedAway: multiset<string>)
    requires Inv(limits, s, [], [], turnedAway)
    ensures Placing(limits, available, s, [], [])
  {
    assert Paths([]) == [];
  }

  lemma SelectKeepsFiles(limits: Limits, available: seq<Entry>, st: State, selected: seq<string>, aside: seq<Candidate>)
    requires st.next <= |st.retained|
    ensures Select(limits, available, st, selected, aside).ledger.files == st.ledger.files
    ensures Select(limits, available, st, selected, aside).next == st.next
    decreases |selected|
  {
    hide FindEntry, FindPending, FindReplaceable;
  }

  // ----- the cap keeps the preferred candidates -----

  /** The root manifest, then manifests, lockfiles, configuration and source, each by path. */
  predicate Prefers(a: Candidate, b: Candidate) {
    && b.entry.path != "package.json"
    && (|| a.entry.path == "package.json"
        || (a.kind.Manifest? && !b.kind.Manifest?)
        || (a.kind.Lockfile? && (b.kind.Config? || b.kind.Source?))
        || (a.kind.Config? && b.kind.Source?)
        || (a.kind == b.kind && Less(a.entry.path, b.entry.path)))
  }

  predicate Arranged(candidates: seq<Candidate>) {
    forall i, j :: 0 <= i < j < |candidates| ==> !Prefers(candidates[j], candidates[i])
  }

  lemma BeforeIsNotPreferred(a: Candidate, b: Candidate)
    ensures CandidateBefore(a, b) ==> !Prefers(b, a)
    ensures !CandidateBefore(a, b) ==> Prefers(b, a)
  {
  }

  lemma PreferredOver(a: Candidate, b: Candidate, c: Candidate)
    requires !Prefers(b, a) && !Prefers(c, b)
    ensures !Prefers(c, a)
  {
    if !Less(b.entry.path, a.entry.path) && !Less(c.entry.path, b.entry.path) {
      NotLessTransitive(a.entry.path, b.entry.path, c.entry.path);
    }
  }

  lemma ArrangedTail(s: seq<Candidate>)
    requires s != [] && Arranged(s)
    ensures Arranged(s[1..]) && forall c :: c in s[1..] ==> !Prefers(c, s[0])
  {
    hide Prefers;
    forall i, j | 0 <= i < j < |s[1..]| ensures !Prefers(s[1..][j], s[1..][i]) {
      assert s[1..][j] == s[j + 1] && s[1..][i] == s[i + 1];
    }
  }

  lemma ArrangedCons(x: Candidate, s: seq<Candidate>)
    requires Arranged(s) && forall c :: c in s ==> !Prefers(c, x)
    ensures Arranged([x] + s)
  {
    hide Prefers;
    var r := [x] + s;
    forall i, j | 0 <= i < j < |r| ensures !Prefers(r[j], r[i]) {
      assert r[j] == s[j - 1] && s[j - 1] in s;
      if i > 0 { assert r[i] == s[i - 1]; }
    }
  }

  lemma {:induction false} InsertArranged(x: Candidate, s: seq<Candidate>)
    requires Arranged(s)
    ensures Arranged(Insert(CandidateBefore, x, s))
    decreases |s|
  {
    hide Prefers, CandidateBefore, Arranged;
    if s == [] { OneArranged(x); return; }
    BeforeIsNotPreferred(x, s[0]);
    ArrangedTail(s);
    if CandidateBefore(x, s[0]) {
      forall c | c in s ensures !Prefers(c, x) {
        if c != s[0] {
          assert s == [s[0]] + s[1..];
          PreferredOver(x, s[0], c);
        }
      }
      ArrangedCons(x, s);
    } else {
      var rest := Insert(CandidateBefore, x, s[1..]);
      InsertArranged(x, s[1..]);
      NotBoth(x, s[0]);
      forall c | c in rest ensures !Prefers(c, s[0]) { assert c in multiset(rest); }
      ArrangedCons(s[0], rest);
    }
  }

  lemma OneArranged(x: Candidate)
    ensures Arranged(Insert(CandidateBefore, x, []))
  {
  }

  lemma NotBoth(a: Candidate, b: Candidate)
    ensures !Prefers(a, b) || !Prefers(b, a)
  {
    if Less(a.entry.path, b.entry.path) && Less(b.entry.path, a.entry.path) {
      LessAsymmetric(b.entry.path, a.entry.path);
    }
  }

  lemma {:induction false} SortArranged(s: seq<Candidate>)
    ensures Arranged(Sort(CandidateBefore, s))
    decreases |s|
  {
    if s != [] {
      SortArranged(s[1..]);
      InsertArranged(s[0], Sort(CandidateBefore, s[1..]));
    }
  }

  lemma ArrangedSplit(all: seq<Candidate>, n: nat)
    requires n <= |all| && Arranged(all)
    ensures Arranged(all[..n]) && forall k, d :: k in all[..n] && d in all[n..] ==> !Prefers(d, k)
  {
    hide Prefers;
    forall k, d | k in all[..n] && d in all[n..] ensures !Prefers(d, k) {
      var i :| 0 <= i < n && all[i] == k;
      var j :| 0 <= j < |all| - n && all[n..][j] == d;
      assert all[n + j] == d;
    }
  }

  /** When there are more candidates than the cap allows, none of those left out is preferred to one that
      is kept; and the kept ones are dealt with in that order. */
  lemma {:induction false} CapKeepsThePreferred(limits: Limits, tree: Tree, hasSelector: bool)
    ensures var kept := Initial(limits, tree, hasSelector).retained;
      && Arranged(kept)
      && |kept| == (if |Candidates(tree.entries, hasSelector)| <= limits.maxFiles
                    then |Candidates(tree.entries, hasSelector)| else limits.maxFiles)
      && exists dropped ::
           && multiset(kept + dropped) == multiset(Candidates(tree.entries, hasSelector))
           && (forall k, d :: k in kept && d in dropped ==> !Prefers(d, k))
  {
    hide Prefers, CandidateBefore, Arranged, Sort;
    var all := Ordered(tree, hasSelector);
    SortArranged(Candidates(tree.entries, hasSelector));
    var n := if |all| <= limits.maxFiles then |all| else limits.maxFiles;
    assert Initial(limits, tree, hasSelector).retained == all[..n];
    ArrangedSplit(all, n);
    assert all[..n] + all[n..] == all;
  }
}
