/** Exactly when batched acquisition reports the oversized paths in the order of the one-by-one form.
    A batch turns a candidate of too large a declared size away while it forms, so that candidate can
    overtake an earlier one whose size only the provider's answer tells. */
module AcquisitionOrder {
  import opened Text
  import opened RepositoryPaths
  import opened AcquisitionModel
  import opened AcquisitionSafety
  import opened AcquisitionRefinement

  /** Only the answer tells that this blob is too large. */
  predicate Late(limits: Limits, answer: Answer, c: Candidate) {
    c.entry.size.None? && answer(c.entry.sha).Blob? && answer(c.entry.sha).size > limits.maxFileBytes
  }

  predicate SomeLate(limits: Limits, answer: Answer, batch: seq<Candidate>) {
    exists c :: c in batch && Late(limits, answer, c)
  }

  /** While the batch forms, a candidate of too large a declared size is turned away after a late one
      was accepted. */
  predicate Overtakes(limits: Limits, answer: Answer, st: State, batch: seq<Candidate>, pending: seq<string>,
      reserved: nat)
    requires st.next <= |st.retained|
    decreases |st.retained| - st.next
  {
    if |batch| >= BATCH_SIZE || st.next == |st.retained| then false
    else
      var c := st.retained[st.next];
      match Decide(limits, st, batch, pending, reserved)
      case Close => false
      case TurnDown(fate) =>
        || (fate.Oversized? && SomeLate(limits, answer, batch))
        || Overtakes(limits, answer, TurnAway(st, fate), batch, pending, reserved)
      case Accept =>
        Overtakes(limits, answer, st.(next := st.next + 1), batch + [c],
          PendingWith(st, pending, c.entry.sha), reserved + Reservation(limits, c.entry))
  }

  /** No round lets a candidate overtake another. */
  predicate KeepsOrder(limits: Limits, world: World, answer: Answer, available: seq<Entry>, st: State)
    requires st.next <= |st.retained| <= limits.maxFiles
    decreases limits.maxFiles - st.next
  {
    if st.next == |st.retained| then true
    else
      RoundAdvances(limits, world, None, available, st);
      var r := Round(limits, world, None, available, st);
      && !Overtakes(limits, answer, st, [], [], 0)
      && (r.Some? ==> KeepsOrder(limits, world, answer, available, r.value))
  }

  // ----- without overtaking the order is the same -----

  lemma OnTimeIsNotOversized(limits: Limits, answer: Answer, total: nat, c: Candidate)
    requires CalmEntry(answer, c) && Reservation(limits, c.entry) <= limits.maxFileBytes && !Late(limits, answer, c)
    ensures var ruling := Alone(limits, answer, total, c.entry);
      ruling.Meets? ==> !ruling.fate.Oversized?
  {
  }

  lemma {:induction false} OversizedEarlyInOrder(limits: Limits, answer: Answer, ledger: Ledger, c: Candidate,
      batch: seq<Candidate>, rest: seq<Candidate>)
    requires Reservation(limits, c.entry) > limits.maxFileBytes && !SomeLate(limits, answer, batch)
    requires forall d :: d in batch ==> CalmEntry(answer, d) && Reservation(limits, d.entry) <= limits.maxFileBytes
    ensures OneByOne(limits, answer, Record(ledger, c.entry, Oversized), batch + rest)
      == OneByOne(limits, answer, ledger, batch + ([c] + rest))
    decreases |batch|
  {
    if batch == [] {
      assert batch + rest == rest && batch + ([c] + rest) == [c] + rest && ([c] + rest)[1..] == rest;
      return;
    }
    var first := batch[0];
    assert first in batch;
    assert (batch + rest)[1..] == batch[1..] + rest;
    assert (batch + ([c] + rest))[1..] == batch[1..] + ([c] + rest);
    OnTimeIsNotOversized(limits, answer, ledger.totalBytes, first);
    var ruling := Alone(limits, answer, ledger.totalBytes, first.entry);
    if ruling.Meets? {
      assert Record(Record(ledger, c.entry, Oversized), first.entry, ruling.fate)
        == Record(Record(ledger, first.entry, ruling.fate), c.entry, Oversized);
      OversizedEarlyInOrder(limits, answer, Record(ledger, first.entry, ruling.fate), c, batch[1..], rest);
    }
  }

  predicate SettlesInOrder(limits: Limits, answer: Answer, st: State, batch: seq<Candidate>, f: Formed)
    requires st.next <= f.st.next <= |st.retained|
  {
    OneByOne(limits, answer, f.st.ledger, f.batch) == OneByOne(limits, answer, st.ledger,
      batch + st.retained[st.next..f.st.next])
  }

  lemma TurnDownInOrder(limits: Limits, answer: Answer, st: State, batch: seq<Candidate>, fate: Fate, f: Formed)
    requires st.next < |st.retained| && st.next + 1 <= f.st.next <= |st.retained| && Justified(limits, st, batch, fate)
    requires fate.Oversized? ==> !SomeLate(limits, answer, batch)
    requires forall d :: d in batch ==> CalmEntry(answer, d) && Reservation(limits, d.entry) <= limits.maxFileBytes
    requires SettlesInOrder(limits, answer, TurnAway(st, fate), batch, f)
    ensures SettlesInOrder(limits, answer, st, batch, f)
  {
    var c := st.retained[st.next];
    var rest := st.retained[st.next + 1..f.st.next];
    assert st.retained[st.next..f.st.next] == [c] + rest;
    if fate.Oversized? { OversizedEarlyInOrder(limits, answer, st.ledger, c, batch, rest); }
    else { assert [] + ([c] + rest) == [c] + rest && [] + rest == rest && ([c] + rest)[1..] == rest; }
  }

  lemma BatchIsCalm(limits: Limits, answer: Answer, st: State, shas: set<string>, batch: seq<Candidate>,
      pending: seq<string>, reserved: nat)
    requires Ready(limits, answer, st, shas, batch, pending, reserved)
    ensures forall d :: d in batch ==> CalmEntry(answer, d) && Reservation(limits, d.entry) <= limits.maxFileBytes
    ensures st.ledger.totalBytes + Reserved(limits, batch) <= limits.maxTotalBytes
  {
  }

  lemma {:induction false} FormBatchInOrder(limits: Limits, answer: Answer, st: State, shas: set<string>,
      batch: seq<Candidate>, pending: seq<string>, reserved: nat)
    requires Ready(limits, answer, st, shas, batch, pending, reserved)
    requires st.next <= |st.retained| && !Overtakes(limits, answer, st, batch, pending, reserved)
    ensures var f := FormBatch(limits, st, batch, pending, reserved);
      st.next <= f.st.next <= |st.retained| && SettlesInOrder(limits, answer, st, batch, f)
    decreases |st.retained| - st.next
  {
    hide SettlesInOrder, Ready, OneByOne, Justified, SomeLate;
    ReservedIsDetermined(limits, answer, st, shas, batch, pending, reserved);
    BatchIsCalm(limits, answer, st, shas, batch, pending, reserved);
    var f := FormBatch(limits, st, batch, pending, reserved);
    FormBatchPlaces(limits, st, batch, pending, reserved);
    if |batch| >= BATCH_SIZE || st.next == |st.retained| {
      NothingConsumedInOrder(limits, answer, st, batch, f);
    } else {
      match Decide(limits, st, batch, pending, reserved) {
        case Close =>
          NothingConsumedInOrder(limits, answer, st, batch, f);
        case TurnDown(fate) =>
          TurnDownReady(limits, answer, st, fate, shas, batch, pending, reserved);
          FormBatchInOrder(limits, answer, TurnAway(st, fate), shas, batch, pending, reserved);
          TurnDownInOrder(limits, answer, st, batch, fate, f);
        case Accept =>
          var c := st.retained[st.next];
          TakenReady(limits, answer, st, shas, batch, pending, reserved);
          FormBatchInOrder(limits, answer, st.(next := st.next + 1), shas, batch + [c],
            PendingWith(st, pending, c.entry.sha), reserved + Reservation(limits, c.entry));
          AcceptInOrder(limits, answer, st, batch, f);
      }
    }
  }

  lemma AcceptInOrder(limits: Limits, answer: Answer, st: State, batch: seq<Candidate>, f: Formed)
    requires st.next < |st.retained| && st.next + 1 <= f.st.next <= |st.retained|
    requires SettlesInOrder(limits, answer, st.(next := st.next + 1), batch + [st.retained[st.next]], f)
    ensures SettlesInOrder(limits, answer, st, batch, f)
  {
    assert batch + st.retained[st.next..f.st.next]
      == (batch + [st.retained[st.next]]) + st.retained[st.next + 1..f.st.next];
  }

  lemma NothingConsumedInOrder(limits: Limits, answer: Answer, st: State, batch: seq<Candidate>, f: Formed)
    requires st.next <= |st.retained| && f.st == st && f.batch == batch
    ensures SettlesInOrder(limits, answer, st, batch, f)
  {
    assert batch + st.retained[st.next..st.next] == batch;
  }

  lemma {:induction false} RunInOrder(limits: Limits, world: World, answer: Answer, available: seq<Entry>, st: State,
      shas: set<string>)
    requires Ready(limits, answer, st, shas, [], [], 0) && |st.retained| <= limits.maxFiles
    requires forall sha, n :: world(sha, n) == answer(sha)
    requires st.next <= |st.retained| && KeepsOrder(limits, world, answer, available, st)
    ensures ReportOf(Run(limits, world, None, available, st)) == OneByOne(limits, answer, st.ledger,
      st.retained[st.next..])
    decreases limits.maxFiles - st.next
  {
    hide Ready, FormBatch, Round, Overtakes;
    if st.next < |st.retained| {
      var f := FormBatch(limits, st, [], [], 0);
      RoundAdvances(limits, world, None, available, st);
      RoundRefines(limits, world, answer, available, st, shas);
      RoundRetains(limits, world, answer, available, st, shas);
      FormBatchInOrder(limits, answer, st, shas, [], [], 0);
      var middle := f.st.next;
      assert [] + st.retained[st.next..middle] == st.retained[st.next..middle];
      assert st.retained[st.next..] == st.retained[st.next..middle] + st.retained[middle..];
      OneByOneAppend(limits, answer, st.ledger, st.retained[st.next..middle], st.retained[middle..]);
      var r := Round(limits, world, None, available, st);
      if r.Some? { RunInOrder(limits, world, answer, available, r.value, shas); }
    }
  }

  // ----- with overtaking it is not -----

  /** Some prefix of `a` holds a path that a prefix of `b` lacks, and the other way round. */
  ghost predicate Clash(a: seq<string>, b: seq<string>) {
    exists m: nat, n: nat, p, q :: ClashAt(a, b, m, n, p, q)
  }

  predicate ClashAt(a: seq<string>, b: seq<string>, m: nat, n: nat, p: string, q: string) {
    m <= |a| && n <= |b| && p in a[..m] && p !in b[..n] && q in b[..n] && q !in a[..m]
  }

  lemma ClashGrows(a: seq<string>, b: seq<string>, a': seq<string>, b': seq<string>)
    requires Clash(a, b) && a <= a' && b <= b'
    ensures Clash(a', b')
  {
    var m: nat, n: nat, p, q :| ClashAt(a, b, m, n, p, q);
    assert a'[..m] == a[..m] && b'[..n] == b[..n];
    assert ClashAt(a', b', m, n, p, q);
  }

  lemma ClashingDiffer(a: seq<string>, b: seq<string>)
    requires Clash(a, b)
    ensures a != b
  {
  }

  lemma {:induction false} OneByOneGrows(limits: Limits, answer: Answer, ledger: Ledger, candidates: seq<Candidate>)
    requires OneByOne(limits, answer, ledger, candidates).Some?
    ensures ledger.oversized <= OneByOne(limits, answer, ledger, candidates).value.oversized
    ensures forall x :: x in OneByOne(limits, answer, ledger, candidates).value.oversized ==> x in ledger.oversized || x in Paths(candidates)
    decreases |candidates|
  {
    if candidates != [] {
      var entry := candidates[0].entry;
      var ruling := Alone(limits, answer, ledger.totalBytes, entry);
      OneByOneGrows(limits, answer, Record(ledger, entry, ruling.fate), candidates[1..]);
      assert Paths(candidates) == [entry.path] + Paths(candidates[1..]);
    }
  }

  /** A late candidate with room for its reservation ends up among the oversized. */
  lemma {:induction false} LateIsListed(limits: Limits, answer: Answer, ledger: Ledger, batch: seq<Candidate>,
      c: Candidate)
    requires OneByOne(limits, answer, ledger, batch).Some? && c in batch && Late(limits, answer, c)
    requires ledger.totalBytes + Reserved(limits, batch) <= limits.maxTotalBytes
    requires forall d :: d in batch ==> CalmEntry(answer, d) && Reservation(limits, d.entry) <= limits.maxFileBytes
    ensures c.entry.path in OneByOne(limits, answer, ledger, batch).value.oversized
    decreases |batch|
  {
    var entry := batch[0].entry;
    assert batch[0] in batch;
    FreshReplyFits(limits, ledger.totalBytes, entry, answer(entry.sha));
    var ledger' := Record(ledger, entry, Alone(limits, answer, ledger.totalBytes, entry).fate);
    assert forall d :: d in batch[1..] ==> d in batch;
    OneByOneGrows(limits, answer, ledger', batch[1..]);
    if c == batch[0] {
      assert Alone(limits, answer, ledger.totalBytes, entry) == Meets(Oversized, Some(TooLarge));
      var all := OneByOne(limits, answer, ledger', batch[1..]).value.oversized;
      assert ledger'.oversized[|ledger.oversized|] == all[|ledger.oversized|] == entry.path;
    } else {
      assert batch == [batch[0]] + batch[1..];
      LateIsListed(limits, answer, ledger', batch[1..], c);
    }
  }

  /** The paths still to come are new, and so are those of the batch. */
  predicate Apart(st: State, batch: seq<Candidate>)
    requires st.next <= |st.retained|
  {
    && (forall i, j :: st.next <= i < j < |st.retained| ==> st.retained[i].entry.path != st.retained[j].entry.path)
    && (forall c, i :: c in batch && st.next <= i < |st.retained| ==> c.entry.path != st.retained[i].entry.path)
    && (forall c :: c in batch ==> c.entry.path !in st.ledger.oversized)
    && (forall i :: st.next <= i < |st.retained| ==> st.retained[i].entry.path !in st.ledger.oversized)
  }

  /** One turned down, in both forms. */
  lemma {:induction false} TurnDownAgrees(limits: Limits, answer: Answer, st: State, batch: seq<Candidate>, fate: Fate,
      simple: Ledger)
    requires st.next < |st.retained| && Justified(limits, st, batch, fate)
    requires SameResult(OneByOne(limits, answer, st.ledger, batch), Some(simple))
    ensures SameResult(OneByOne(limits, answer, TurnAway(st, fate).ledger, batch),
      Some(Record(simple, st.retained[st.next].entry, fate)))
    ensures Alone(limits, answer, simple.totalBytes, st.retained[st.next].entry) == Meets(fate, None)
  {
    var c := st.retained[st.next];
    if fate.Oversized? {
      OversizedEarlyOrLate(limits, answer, st.ledger, c, batch, []);
      assert batch + [] == batch && [c] + [] == [c];
      OneByOneAppend(limits, answer, st.ledger, batch, [c]);
      var first := OneByOne(limits, answer, st.ledger, batch).value;
      assert [c][1..] == [];
      assert OneByOne(limits, answer, first, [c]) == Some(Record(first, c.entry, Oversized));
      RecordAgrees(first, simple, c.entry, Oversized);
    }
  }

  lemma {:induction false} AcceptAgrees(limits: Limits, answer: Answer, ledger: Ledger, batch: seq<Candidate>,
      c: Candidate, simple: Ledger)
    requires SameResult(OneByOne(limits, answer, ledger, batch), Some(simple))
    ensures SameResult(OneByOne(limits, answer, ledger, batch + [c]), OneByOne(limits, answer, simple, [c]))
  {
    OneByOneAppend(limits, answer, ledger, batch, [c]);
    AgreeCarriesOn(limits, answer, OneByOne(limits, answer, ledger, batch).value, simple, [c]);
  }

  lemma {:induction false} OvertakingClashes(limits: Limits, answer: Answer, st: State, batch: seq<Candidate>,
      simple: Ledger, f: Formed)
    requires st.next < |st.retained| && st.next + 1 <= f.st.next <= |st.retained|
    requires SomeLate(limits, answer, batch) && Apart(st, batch)
    requires forall d :: d in batch ==> CalmEntry(answer, d) && Reservation(limits, d.entry) <= limits.maxFileBytes
    requires st.ledger.totalBytes + Reserved(limits, batch) <= limits.maxTotalBytes
    requires SameResult(OneByOne(limits, answer, st.ledger, batch), Some(simple))
    requires TurnAway(st, Oversized).ledger.oversized <= f.st.ledger.oversized
    requires OneByOne(limits, answer, simple, st.retained[st.next..f.st.next]).Some?
    ensures Clash(OneByOne(limits, answer, simple, st.retained[st.next..f.st.next]).value.oversized,
      f.st.ledger.oversized)
  {
    var early := st.retained[st.next].entry.path;
    var c :| c in batch && Late(limits, answer, c);
    LateIsListed(limits, answer, st.ledger, batch, c);
    var settled := OneByOne(limits, answer, st.ledger, batch).value.oversized;
    OneByOneGrows(limits, answer, st.ledger, batch);
    assert forall x :: x in settled <==> x in simple.oversized by {
      forall x ensures x in settled <==> x in simple.oversized {
        assert x in settled <==> x in multiset(settled);
        assert x in simple.oversized <==> x in multiset(simple.oversized);
      }
    }
    assert early !in Paths(batch) && early !in settled;
    var turned := TurnAway(st, Oversized).ledger.oversized;
    OneByOneGrows(limits, answer, simple, st.retained[st.next..f.st.next]);
    assert simple.oversized[..|simple.oversized|] == simple.oversized && turned[..|turned|] == turned;
    assert ClashAt(simple.oversized, turned, |simple.oversized|, |turned|, c.entry.path, early);
    ClashGrows(simple.oversized, turned, OneByOne(limits, answer, simple, st.retained[st.next..f.st.next]).value.oversized, f.st.ledger.oversized);
  }

  lemma FormBatchGrows(limits: Limits, st: State, batch: seq<Candidate>, pending: seq<string>, reserved: nat)
    requires st.next <= |st.retained|
    ensures st.ledger.oversized <= FormBatch(limits, st, batch, pending, reserved).st.ledger.oversized
    decreases |st.retained| - st.next
  {
  }

  lemma OneMoreFormed(limits: Limits, answer: Answer, st: State, batch: seq<Candidate>, pending: seq<string>,
      reserved: nat)
    requires st.next <= |st.retained| && Overtakes(limits, answer, st, batch, pending, reserved)
    ensures st.next < |st.retained|
    ensures var c := st.retained[st.next];
      var decision := Decide(limits, st, batch, pending, reserved);
      var f := FormBatch(limits, st, batch, pending, reserved);
      && !decision.Close?
      && (decision.TurnDown? ==>
            && f == FormBatch(limits, TurnAway(st, decision.fate), batch, pending, reserved)
            && ((decision.fate.Oversized? && SomeLate(limits, answer, batch))
                || Overtakes(limits, answer, TurnAway(st, decision.fate), batch, pending, reserved)))
      && (decision.Accept? ==>
            var st' := st.(next := st.next + 1);
            var pending', reserved' := PendingWith(st, pending, c.entry.sha), reserved + Reservation(limits, c.entry);
            && f == FormBatch(limits, st', batch + [c], pending', reserved')
            && Overtakes(limits, answer, st', batch + [c], pending', reserved'))
  {
    hide Decide, SomeLate, NeedsFetch, Reservation;
  }

  lemma {:induction false} FormBatchClashes(limits: Limits, answer: Answer, st: State, shas: set<string>,
      batch: seq<Candidate>, pending: seq<string>, reserved: nat, simple: Ledger)
    requires Ready(limits, answer, st, shas, batch, pending, reserved)
    requires st.next <= |st.retained| && Apart(st, batch) && Overtakes(limits, answer, st, batch, pending, reserved)
    requires SameResult(OneByOne(limits, answer, st.ledger, batch), Some(simple))
    requires var f := FormBatch(limits, st, batch, pending, reserved);
      st.next <= f.st.next <= |st.retained| && OneByOne(limits, answer, simple, st.retained[st.next..f.st.next]).Some?
    ensures var f := FormBatch(limits, st, batch, pending, reserved);
      Clash(OneByOne(limits, answer, simple, st.retained[st.next..f.st.next]).value.oversized, f.st.ledger.oversized)
    decreases |st.retained| - st.next
  {
    hide Ready, SomeLate, Clash, OneByOne, SameResult, Apart, Justified, Decide, NeedsFetch, Reservation, CalmEntry,
      Alone, Record;
    hide FormBatch, Overtakes, PendingWith, Calm;
    OneMoreFormed(limits, answer, st, batch, pending, reserved);
    BatchIsCalm(limits, answer, st, shas, batch, pending, reserved);
    ReservedIsDetermined(limits, answer, st, shas, batch, pending, reserved);
    var c := st.retained[st.next];
    var f := FormBatch(limits, st, batch, pending, reserved);
    match Decide(limits, st, batch, pending, reserved) {
      case TurnDown(fate) =>
        var st' := TurnAway(st, fate);
        FormBatchPlaces(limits, st', batch, pending, reserved);
        FormBatchGrows(limits, st', batch, pending, reserved);
        if fate.Oversized? && SomeLate(limits, answer, batch) {
          OvertakingClashes(limits, answer, st, batch, simple, f);
        } else {
          TurnDownReady(limits, answer, st, fate, shas, batch, pending, reserved);
          TurnDownAgrees(limits, answer, st, batch, fate, simple);
          OneMoreSimple(limits, answer, simple, st.retained, st.next, f.st.next);
          ApartAfterTurnDown(st, batch, fate);
          FormBatchClashes(limits, answer, st', shas, batch, pending, reserved, Record(simple, c.entry, fate));
        }
      case Accept =>
        var st' := st.(next := st.next + 1);
        AcceptedFits(limits, st, batch, pending, reserved);
        TakenReady(limits, answer, st, shas, batch, pending, reserved);
        AcceptAgrees(limits, answer, st.ledger, batch, c, simple);
        FormBatchPlaces(limits, st', batch + [c], PendingWith(st, pending, c.entry.sha),
          reserved + Reservation(limits, c.entry));
        OneMoreSimple(limits, answer, simple, st.retained, st.next, f.st.next);
        ApartAfterAccept(st, batch);
        FormBatchClashes(limits, answer, st', shas, batch + [c], PendingWith(st, pending, c.entry.sha),
          reserved + Reservation(limits, c.entry), OneByOne(limits, answer, simple, [c]).value);
    }
  }

  lemma AcceptedFits(limits: Limits, st: State, batch: seq<Candidate>, pending: seq<string>, reserved: nat)
    requires st.next < |st.retained| && Decide(limits, st, batch, pending, reserved).Accept?
    ensures Reservation(limits, st.retained[st.next].entry) <= limits.maxFileBytes
    ensures st.ledger.totalBytes + reserved + Reservation(limits, st.retained[st.next].entry) <= limits.maxTotalBytes
  {
  }

  lemma OneMoreSimple(limits: Limits, answer: Answer, simple: Ledger, retained: seq<Candidate>, from: nat, to: nat)
    requires from < to <= |retained|
    requires OneByOne(limits, answer, simple, retained[from..to]).Some?
    ensures OneByOne(limits, answer, simple, [retained[from]]).Some?
    ensures OneByOne(limits, answer, simple, retained[from..to])
      == OneByOne(limits, answer, OneByOne(limits, answer, simple, [retained[from]]).value, retained[from + 1..to])
    ensures var ruling := Alone(limits, answer, simple.totalBytes, retained[from].entry);
      ruling.Meets? && OneByOne(limits, answer, simple, [retained[from]]) == Some(Record(simple, retained[from].entry, ruling.fate))
  {
    assert retained[from..to] == [retained[from]] + retained[from + 1..to];
    OneByOneAppend(limits, answer, simple, [retained[from]], retained[from + 1..to]);
    assert [retained[from]][1..] == [];
  }

  lemma ApartAfterTurnDown(st: State, batch: seq<Candidate>, fate: Fate)
    requires st.next < |st.retained| && Apart(st, batch) && (fate.Oversized? || fate.OverBudget?)
    ensures Apart(TurnAway(st, fate), batch)
  {
  }

  lemma ApartAfterAccept(st: State, batch: seq<Candidate>)
    requires st.next < |st.retained| && Apart(st, batch)
    ensures Apart(st.(next := st.next + 1), batch + [st.retained[st.next]])
  {
  }

  lemma {:induction false} FormBatchApart(limits: Limits, st: State, batch: seq<Candidate>, pending: seq<string>,
      reserved: nat)
    requires st.next <= |st.retained| && Apart(st, batch)
    ensures var f := FormBatch(limits, st, batch, pending, reserved);
      f.st.next <= |f.st.retained| && Apart(f.st, f.batch)
    decreases |st.retained| - st.next
  {
    hide Apart, NeedsFetch, Reservation, Record;
    if !(|batch| >= BATCH_SIZE || st.next == |st.retained|) {
      match Decide(limits, st, batch, pending, reserved) {
        case Close =>
        case TurnDown(fate) =>
          ApartAfterTurnDown(st, batch, fate);
          FormBatchApart(limits, TurnAway(st, fate), batch, pending, reserved);
        case Accept =>
          var c := st.retained[st.next];
          ApartAfterAccept(st, batch);
          FormBatchApart(limits, st.(next := st.next + 1), batch + [c],
            PendingWith(st, pending, c.entry.sha), reserved + Reservation(limits, c.entry));
      }
    }
  }

  /** A round only adds to the list, and leaves the paths to come new. */
  lemma {:induction false} RoundGrows(limits: Limits, world: World, answer: Answer, available: seq<Entry>, st: State,
      shas: set<string>)
    requires Ready(limits, answer, st, shas, [], [], 0) && st.next < |st.retained| && Apart(st, [])
    requires forall sha, n :: world(sha, n) == answer(sha)
    ensures var f := FormBatch(limits, st, [], [], 0);
      var r := Round(limits, world, None, available, st);
      r.Some? ==> f.st.ledger.oversized <= r.value.ledger.oversized && r.value.next <= |r.value.retained| && Apart(r.value, [])
  {
    hide OneByOne, Ready, Round, FormBatch;
    var f := FormBatch(limits, st, [], [], 0);
    var r := Round(limits, world, None, available, st);
    RoundRetains(limits, world, answer, available, st, shas);
    RoundRefines(limits, world, answer, available, st, shas);
    FormBatchApart(limits, st, [], [], 0);
    FormBatchPlaces(limits, st, [], [], 0);
    if r.Some? {
      OneByOneGrows(limits, answer, f.st.ledger, f.batch);
      forall i | r.value.next <= i < |r.value.retained| ensures r.value.retained[i].entry.path !in r.value.ledger.oversized {
        assert r.value.retained[i].entry.path !in Paths(f.batch);
      }
    }
  }

  lemma {:induction false} RunGrows(limits: Limits, world: World, answer: Answer, available: seq<Entry>, st: State,
      shas: set<string>)
    requires Ready(limits, answer, st, shas, [], [], 0) && st.next <= |st.retained| <= limits.maxFiles && Apart(st, [])
    requires forall sha, n :: world(sha, n) == answer(sha)
    ensures var end := Run(limits, world, None, available, st);
      end.Some? ==> st.ledger.oversized <= end.value.ledger.oversized
    decreases limits.maxFiles - st.next
  {
    hide Ready, Round, FormBatch, Apart;
    if st.next < |st.retained| {
      RoundAdvances(limits, world, None, available, st);
      FormBatchGrows(limits, st, [], [], 0);
      RoundRefines(limits, world, answer, available, st, shas);
      RoundGrows(limits, world, answer, available, st, shas);
      var r := Round(limits, world, None, available, st);
      if r.Some? { RunGrows(limits, world, answer, available, r.value, shas); }
    }
  }

  lemma {:induction false} RunClashes(limits: Limits, world: World, answer: Answer, available: seq<Entry>, st: State,
      shas: set<string>, simple: Ledger)
    requires Ready(limits, answer, st, shas, [], [], 0) && st.next <= |st.retained| <= limits.maxFiles && Apart(st, [])
    requires forall sha, n :: world(sha, n) == answer(sha)
    requires Agree(st.ledger, simple) && !KeepsOrder(limits, world, answer, available, st)
    requires Run(limits, world, None, available, st).Some? && OneByOne(limits, answer, simple, st.retained[st.next..]).Some?
    ensures Clash(OneByOne(limits, answer, simple, st.retained[st.next..]).value.oversized,
                  Run(limits, world, None, available, st).value.ledger.oversized)
    decreases limits.maxFiles - st.next
  {
    hide Ready, Round, FormBatch, Apart, Clash, Overtakes, Agree;
    var f := FormBatch(limits, st, [], [], 0);
    RoundAdvances(limits, world, None, available, st);
    RoundRefines(limits, world, answer, available, st, shas);
    RoundGrows(limits, world, answer, available, st, shas);
    var r := Round(limits, world, None, available, st).value;
    var stretch, rest := st.retained[st.next..f.st.next], st.retained[f.st.next..];
    assert st.retained[st.next..] == stretch + rest;
    OneByOneAppend(limits, answer, simple, stretch, rest);
    var middle := OneByOne(limits, answer, simple, stretch).value;
    if Overtakes(limits, answer, st, [], [], 0) {
      FormBatchClashes(limits, answer, st, shas, [], [], 0, simple);
      RunGrows(limits, world, answer, available, r, shas);
      OneByOneGrows(limits, answer, middle, rest);
      ClashGrows(middle.oversized, f.st.ledger.oversized,
        OneByOne(limits, answer, simple, st.retained[st.next..]).value.oversized,
        Run(limits, world, None, available, st).value.ledger.oversized);
    } else {
      AgreeCarriesOn(limits, answer, st.ledger, simple, stretch);
      AgreeIsTransitive(r.ledger, OneByOne(limits, answer, st.ledger, stretch).value, middle);
      RunClashes(limits, world, answer, available, r, shas, middle);
    }
  }

  lemma AgreeIsTransitive(a: Ledger, b: Ledger, c: Ledger)
    requires Agree(a, b) && Agree(b, c)
    ensures Agree(a, c)
  {
  }

  // ----- whole acquisitions -----

  lemma {:induction false} InitialIsApart(limits: Limits, tree: Tree)
    requires DistinctPaths(tree.entries) && METADATA_REQUESTS <= limits.maxRequests
    ensures Apart(Initial(limits, tree, false), [])
  {
    var st := Initial(limits, tree, false);
    InitialHolds(limits, tree, false);
    forall i, j | 0 <= i < j < |st.retained| ensures st.retained[i].entry.path != st.retained[j].entry.path {
      var p := st.retained[j].entry.path;
      assert Unique(st, [], p);
      BagSplit(st.retained, j, p);
      assert RemoveAt(st.retained, j)[i] == st.retained[i];
      assert Paths(RemoveAt(st.retained, j))[i] == st.retained[i].entry.path;
      assert Bag(RemoveAt(st.retained, j))[p] == 0;
    }
  }

  /** The raw reports are the same, order included, exactly when the acquisition throws in both forms or
      no round accepts a late candidate and then turns one of too large a declared size away. */
  lemma {:induction false} OrderAgreesExactlyWithoutOvertaking(limits: Limits, tree: Tree, world: World, answer: Answer)
    requires Calm(limits, world, answer, Take(Ordered(tree, false), limits.maxFiles)) && DistinctPaths(tree.entries)
    ensures var st, available := Initial(limits, tree, false), Available(tree.entries);
      var run := Run(limits, world, None, available, st);
      var same := ReportOf(run) == OneByOne(limits, answer, EMPTY_LEDGER, Take(Ordered(tree, false), limits.maxFiles));
      same <==> run.None? || KeepsOrder(limits, world, answer, available, st)
  {
    hide Run, OneByOne, KeepsOrder, Ordered, Ready;
    var st, available := Initial(limits, tree, false), Available(tree.entries);
    var shas := Shas(st.retained);
    assert st.retained[0..] == st.retained;
    InitialIsReady(limits, tree, world, answer);
    RunRefines(limits, world, answer, available, st, shas);
    if KeepsOrder(limits, world, answer, available, st) {
      RunInOrder(limits, world, answer, available, st, shas);
    } else if Run(limits, world, None, available, st).Some? {
      InitialIsApart(limits, tree);
      RunClashes(limits, world, answer, available, st, shas, EMPTY_LEDGER);
      ClashingDiffer(OneByOne(limits, answer, EMPTY_LEDGER, st.retained).value.oversized,
        Run(limits, world, None, available, st).value.ledger.oversized);
    }
  }

  lemma InitialIsReady(limits: Limits, tree: Tree, world: World, answer: Answer)
    requires Calm(limits, world, answer, Take(Ordered(tree, false), limits.maxFiles))
    ensures var st := Initial(limits, tree, false);
      Ready(limits, answer, st, Shas(st.retained), [], [], 0)
  {
    hide Ordered;
    var st := Initial(limits, tree, false);
    assert st.retained[0..] == st.retained;
    assert Unknown(st, Shas(st.retained)) == Shas(st.retained);
  }

  lemma {:induction false} OnTimeRunsKeepOrder(limits: Limits, world: World, answer: Answer, available: seq<Entry>,
      st: State)
    requires st.next <= |st.retained| <= limits.maxFiles && !SomeLate(limits, answer, st.retained)
    ensures KeepsOrder(limits, world, answer, available, st)
    decreases limits.maxFiles - st.next
  {
    hide SomeLate, FormBatch;
    if st.next < |st.retained| {
      RoundAdvances(limits, world, None, available, st);
      NoneOvertakes(limits, answer, st, [], [], 0);
      var r := Round(limits, world, None, available, st);
      if r.Some? {
        FormBatchPlaces(limits, st, [], [], 0);
        var f := FormBatch(limits, st, [], [], 0);
        var (replies, count) := FetchAll(limits, world, f.st.requests, f.pending);
        RetainBatchPlaces(limits, f.st.(requests := count), f.batch, replies);
        OnTimeRunsKeepOrder(limits, world, answer, available, r.value);
      }
    }
  }

  lemma {:induction false} NoneOvertakes(limits: Limits, answer: Answer, st: State, batch: seq<Candidate>,
      pending: seq<string>, reserved: nat)
    requires st.next <= |st.retained| && !SomeLate(limits, answer, st.retained) && forall c :: c in batch ==> c in st.retained
    ensures !Overtakes(limits, answer, st, batch, pending, reserved)
    decreases |st.retained| - st.next
  {
    hide NeedsFetch, Reservation, Record, Late;
    if !(|batch| >= BATCH_SIZE || st.next == |st.retained|) {
      match Decide(limits, st, batch, pending, reserved) {
        case Close =>
        case TurnDown(fate) => NoneOvertakes(limits, answer, TurnAway(st, fate), batch, pending, reserved);
        case Accept =>
          var c := st.retained[st.next];
          NoneOvertakes(limits, answer, st.(next := st.next + 1), batch + [c],
            PendingWith(st, pending, c.entry.sha), reserved + Reservation(limits, c.entry));
      }
    }
  }

  /** In particular when the tree declares every size, or no undeclared blob is too large. */
  lemma {:induction false} DeclaredSizesKeepTheOrder(limits: Limits, tree: Tree, world: World, answer: Answer)
    requires Calm(limits, world, answer, Take(Ordered(tree, false), limits.maxFiles))
    requires !SomeLate(limits, answer, Take(Ordered(tree, false), limits.maxFiles))
    ensures ReportOf(Run(limits, world, None, Available(tree.entries), Initial(limits, tree, false)))
      == OneByOne(limits, answer, EMPTY_LEDGER, Take(Ordered(tree, false), limits.maxFiles))
  {
    hide Ordered, SomeLate, Ready;
    var st := Initial(limits, tree, false);
    assert st.retained[0..] == st.retained;
    InitialIsReady(limits, tree, world, answer);
    OnTimeRunsKeepOrder(limits, world, answer, Available(tree.entries), st);
    RunInOrder(limits, world, answer, Available(tree.entries), st, Shas(st.retained));
  }

  // ----- an input on which the orders differ -----

  const SMALL := Limits(5, 100, 10, 10)
  const UNDECLARED := Entry("a.js", "100644", BlobEntry, "s", None)
  const DECLARED := Entry("b.js", "100644", BlobEntry, "t", Some(9))
  const TREE := Tree([UNDECLARED, DECLARED], false)

  function BigBlob(sha: string): Reply { Blob(9, NonText) }

  lemma {:induction false} SplitPlain(s: string)
    requires '/' !in s
    ensures Split(s, '/') == [s]
  {
    if s != "" {
      SplitPlain(s[1..]);
      assert [s[0]] + s[1..] == s;
    }
  }

  predicate OneLetterScript(path: string) {
    path in {"a.js", "b.js"}
  }

  lemma OneLetterScriptIsSource(path: string)
    requires OneLetterScript(path)
    ensures IsSourcePath(path)
  {
    BaseNameOfPlain(path);
    assert Lower(path) == path;
    assert EndsWith(path, SOURCE_EXTENSIONS[0]);
  }

  lemma OneLetterScriptIsPlain(path: string)
    requires OneLetterScript(path)
    ensures IsCanonicalPath(path) && !IsIgnoredPath(path)
  {
    SplitPlain(path);
  }

  lemma OneLetterScriptIsChosen(entry: Entry)
    requires OneLetterScript(entry.path) && entry.entryType == BlobEntry && entry.mode == "100644"
    ensures Classify(entry, false) == Chosen(Candidate(entry, Source))
  {
    hide IsCanonicalPath, IsIgnoredPath, IsSourcePath, IsUnsupportedSourcePath, IsInitiallySupportedPath,
      IsScriptConfigPath;
    OneLetterScriptIsSource(entry.path);
    OneLetterScriptIsPlain(entry.path);
    SourcePathsCount(entry.path);
    assert |entry.path| == 4;
  }

  lemma SmallTreeIsOrdered()
    ensures Take(Ordered(TREE, false), SMALL.maxFiles) == [Candidate(UNDECLARED, Source), Candidate(DECLARED, Source)]
  {
    var first, second := Candidate(UNDECLARED, Source), Candidate(DECLARED, Source);
    OneLetterScriptIsChosen(UNDECLARED);
    OneLetterScriptIsChosen(DECLARED);
    hide Classify;
    assert [UNDECLARED, DECLARED][1..] == [DECLARED] && [DECLARED][1..] == [];
    assert Candidates([DECLARED], false) == [second];
    assert Candidates(TREE.entries, false) == [first] + [second];
    assert CandidateBefore(first, second) by { assert !Less("b.js", "a.js"); }
    assert Sort(CandidateBefore, [second]) == [second] by { assert [second][1..] == []; }
    assert [first, second][1..] == [second];
    assert Sort(CandidateBefore, [first, second]) == Insert(CandidateBefore, first, [second]) == [first] + [second];
  }

  /** Two source files of nine bytes with a limit of five, only the second declaring its size: the
      second is rejected while the batch forms, the first when its blob arrives. */
  lemma {:induction false} RawOrderCanDiffer()
    ensures var st, available := Initial(SMALL, TREE, false), Available(TREE.entries);
      var world := (sha: string, n: nat) => BigBlob(sha);
      var candidates := Take(Ordered(TREE, false), SMALL.maxFiles);
      && Calm(SMALL, world, BigBlob, candidates) && DistinctPaths(TREE.entries)
      && !KeepsOrder(SMALL, world, BigBlob, available, st)
      && OneByOne(SMALL, BigBlob, EMPTY_LEDGER, candidates).Some?
      && ReportOf(Run(SMALL, world, None, available, st)) != OneByOne(SMALL, BigBlob, EMPTY_LEDGER, candidates)
  {
    hide Run, Ordered, KeepsOrder, FormBatch;
    var first, second := Candidate(UNDECLARED, Source), Candidate(DECLARED, Source);
    var st, available := Initial(SMALL, TREE, false), Available(TREE.entries);
    var world := (sha: string, n: nat) => BigBlob(sha);
    SmallTreeIsOrdered();
    assert Calm(SMALL, world, BigBlob, [first, second]) by {
      assert Shas([first, second]) == {"s", "t"};
    }
    assert DistinctPaths(TREE.entries) by { assert EntryPaths(TREE.entries) == ["a.js"] + ["b.js"]; }
    assert !KeepsOrder(SMALL, world, BigBlob, available, st) by { SecondOvertakes(world, available); }
    assert OneByOne(SMALL, BigBlob, EMPTY_LEDGER, [first, second]).Some? by { BothAreOversized(); }
    OrderAgreesExactlyWithoutOvertaking(SMALL, TREE, world, BigBlob);
    InitialIsReady(SMALL, TREE, world, BigBlob);
    RunRefines(SMALL, world, BigBlob, available, st, Shas(st.retained));
    assert st.retained[0..] == [first, second];
  }

  lemma SecondOvertakes(world: World, available: seq<Entry>)
    ensures !KeepsOrder(SMALL, world, BigBlob, available, Initial(SMALL, TREE, false))
  {
    hide Round, Ordered;
    SmallTreeIsOrdered();
    var st := Initial(SMALL, TREE, false);
    var first := Candidate(UNDECLARED, Source);
    assert Late(SMALL, BigBlob, first);
    var st1 := st.(next := 1);
    assert SomeLate(SMALL, BigBlob, [first]) by { assert first in [first]; }
    assert Decide(SMALL, st1, [first], ["s"], 5) == TurnDown(Oversized);
    assert Overtakes(SMALL, BigBlob, st1, [first], ["s"], 5);
    assert Decide(SMALL, st, [], [], 0) == Accept;
    assert [] + [first] == [first] && PendingWith(st, [], "s") == [] + ["s"] == ["s"];
    assert Overtakes(SMALL, BigBlob, st, [], [], 0);
  }

  lemma BothAreOversized()
    ensures OneByOne(SMALL, BigBlob, EMPTY_LEDGER, [Candidate(UNDECLARED, Source), Candidate(DECLARED, Source)]).Some?
  {
    var first, second := Candidate(UNDECLARED, Source), Candidate(DECLARED, Source);
    assert [first, second][1..] == [second] && [second][1..] == [];
    var ledger := Record(EMPTY_LEDGER, UNDECLARED, Oversized);
    assert OneByOne(SMALL, BigBlob, ledger, [second]).Some?;
  }
}
