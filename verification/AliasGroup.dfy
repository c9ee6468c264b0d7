/** `advisoryAliasGroup` of `advisory-severity.ts`: the fixpoint loop that collects everything known
    about one advisory under any of its names. */
module AliasGroup {
  import opened Text
  import opened AdvisoryGroups

  datatype Vulnerability = Vulnerability(id: string, aliases: seq<string>, withdrawn: bool)

  function Names(v: Vulnerability): Ids {
    {v.id} + set a | a in v.aliases
  }

  function NameSets(items: seq<Vulnerability>): set<Ids> {
    set i | 0 <= i < |items| :: Names(items[i])
  }

  /** The names connected to `id`: the smallest set that holds it and that no advisory straddles. */
  ghost predicate NamesOf(items: seq<Vulnerability>, id: string, names: Ids) {
    && id in names && Closed(NameSets(items), names)
    && forall s :: Closed(NameSets(items), s) && id in s ==> names <= s
  }

  lemma {:induction false} ClosedDifference(advisories: set<Ids>, a: Ids, b: Ids)
    requires Closed(advisories, a) && Closed(advisories, b)
    ensures Closed(advisories, a - b)
  {
    hide Meet;
    forall x | x in advisories && Meet(x, a - b) ensures x <= a - b {
      var id := MeetPoint(x, a - b);
      MeetAt(x, a, id);
      forall y | y in x ensures y in a - b { if y in b { MeetAt(x, b, y); } }
    }
  }

  /** Any connected name leads to the same names, hence to the same group. */
  lemma {:induction false} EveryAliasFindsTheSameNames(items: seq<Vulnerability>, id: string, other: string, a: Ids,
      b: Ids)
    requires NamesOf(items, id, a) && NamesOf(items, other, b) && other in a
    ensures a == b
  {
    hide Closed;
    if id !in b { ClosedDifference(NameSets(items), a, b); }
  }

  /** With an advisory's own name the names are a component: this group is one of the scorer's. */
  lemma {:induction false} NamesAreAComponent(items: seq<Vulnerability>, id: string, names: Ids)
    requires NamesOf(items, id, names)
    ensures Component(NameSets(items), names)
  {
    hide Closed, Meet;
    forall s | Closed(NameSets(items), s) && Meet(s, names) ensures names <= s {
      if id !in s {
        ClosedDifference(NameSets(items), names, s);
        var common := MeetPoint(s, names);
      }
    }
  }

  ghost function Indices(n: nat): (r: set<nat>)
    ensures forall i :: i in r <==> 0 <= i < n
  {
    if n == 0 then {} else Indices(n - 1) + {n - 1}
  }

  /** Ascending `localeCompare` of ids is the caller's `before`. The loop terminates; the group holds
      exactly the advisories connected to `id` that are not withdrawn, each as often as it is listed. */
  method AdvisoryAliasGroup(items: seq<Vulnerability>, id: string, before: (Vulnerability, Vulnerability) -> bool)
    returns (group: seq<Vulnerability>, names: Ids)
    ensures NamesOf(items, id, names)
    ensures forall v :: v in group <==> v in items && !v.withdrawn && Names(v) <= names
    ensures |group| == |set i | 0 <= i < |items| && !items[i].withdrawn && Names(items[i]) <= names|
  {
    hide Meet, FoundAre, Closed, Names;
    NoneFound(items);
    var selected: set<nat> := {};
    var found: seq<Vulnerability> := [];
    names := {id};
    var changed := true;
    while changed
      invariant id in names && selected <= Indices(|items|)
      invariant forall i :: i in selected ==> Names(items[i]) <= names
      invariant !changed ==> forall i :: 0 <= i < |items| && i !in selected ==> !Meet(Names(items[i]), names)
      invariant forall s :: Closed(NameSets(items), s) && id in s ==> names <= s
      invariant FoundAre(items, selected, found)
      decreases Indices(|items|) - selected, changed
    {
      changed := false;
      ghost var namesBefore, selectedBefore := names, selected;
      for k := 0 to |items|
        invariant id in names && selectedBefore <= selected <= Indices(|items|)
        invariant forall i :: i in selected ==> Names(items[i]) <= names
        invariant if changed then selectedBefore != selected else selectedBefore == selected && namesBefore == names
        invariant !changed ==> forall i :: 0 <= i < k && i !in selected ==> !Meet(Names(items[i]), names)
        invariant forall s :: Closed(NameSets(items), s) && id in s ==> names <= s
        invariant FoundAre(items, selected, found)
      {
        if k !in selected && Meet(Names(items[k]), names) {
          StillLeast(items, k, id, names);
          SelectOne(items, selected, found, k);
          selected := selected + {k};
          if !items[k].withdrawn { found := found + [items[k]]; }
          names := names + Names(items[k]);
          changed := true;
        }
      }
    }
    SelectedAreInside(items, selected, names);
    group := Sort(before, found);
    SortMembers(before, found);
    FoundMembers(items, selected, found, names);
  }

  lemma NoneFound(items: seq<Vulnerability>)
    ensures FoundAre(items, {}, [])
  {
    assert Live(items, {}) == {};
  }

  lemma {:induction false} FoundMembers(items: seq<Vulnerability>, selected: set<nat>, found: seq<Vulnerability>,
      names: Ids)
    requires FoundAre(items, selected, found)
    requires Live(items, selected) == set i | 0 <= i < |items| && !items[i].withdrawn && Names(items[i]) <= names
    ensures forall v :: v in found <==> v in items && !v.withdrawn && Names(v) <= names
    ensures |found| == |set i | 0 <= i < |items| && !items[i].withdrawn && Names(items[i]) <= names|
  {
    hide Names;
    forall v | v in items && !v.withdrawn && Names(v) <= names ensures v in found {
      var i :| 0 <= i < |items| && items[i] == v;
      assert i in Live(items, selected);
    }
  }

  lemma {:induction false} StillLeast(items: seq<Vulnerability>, k: nat, id: string, names: Ids)
    requires k < |items| && Meet(Names(items[k]), names)
    requires forall s :: Closed(NameSets(items), s) && id in s ==> names <= s
    ensures forall s :: Closed(NameSets(items), s) && id in s ==> names + Names(items[k]) <= s
  {
    hide Meet;
    forall s | Closed(NameSets(items), s) && id in s ensures Names(items[k]) <= s {
      var common := MeetPoint(Names(items[k]), names);
      MeetAt(Names(items[k]), s, common);
      assert Names(items[k]) in NameSets(items);
    }
  }

  /** The selected advisories that are not withdrawn. */
  ghost function Live(items: seq<Vulnerability>, selected: set<nat>): set<nat> {
    set i | i in selected && 0 <= i < |items| && !items[i].withdrawn
  }

  ghost predicate IsOf(items: seq<Vulnerability>, some: set<nat>, v: Vulnerability) {
    exists i :: i in some && 0 <= i < |items| && items[i] == v
  }

  /** The list holds the selected advisories that are not withdrawn. */
  ghost predicate FoundAre(items: seq<Vulnerability>, selected: set<nat>, found: seq<Vulnerability>) {
    (forall v :: v in found <==> IsOf(items, Live(items, selected), v)) && |found| == |Live(items, selected)|
  }

  lemma {:induction false} SelectOne(items: seq<Vulnerability>, selected: set<nat>, found: seq<Vulnerability>, k: nat)
    requires FoundAre(items, selected, found) && k < |items| && k !in selected
    ensures FoundAre(items, selected + {k}, if items[k].withdrawn then found else found + [items[k]])
  {
    var live, now := Live(items, selected), Live(items, selected + {k});
    assert now == live + (if items[k].withdrawn then {} else {k});
    forall v ensures IsOf(items, now, v) <==> IsOf(items, live, v) || (!items[k].withdrawn && v == items[k]) {
      if IsOf(items, live, v) {
        var i :| i in live && 0 <= i < |items| && items[i] == v;
        assert i in now;
      }
      if !items[k].withdrawn && v == items[k] { assert k in now; }
    }
  }

  lemma {:induction false} SelectedAreInside(items: seq<Vulnerability>, selected: set<nat>, names: Ids)
    requires selected <= Indices(|items|)
    requires forall i :: i in selected ==> Names(items[i]) <= names
    requires forall i :: 0 <= i < |items| && i !in selected ==> !Meet(Names(items[i]), names)
    ensures Closed(NameSets(items), names)
    ensures Live(items, selected) == set i | 0 <= i < |items| && !items[i].withdrawn && Names(items[i]) <= names
  {
    hide Meet;
    forall i | 0 <= i < |items| && Names(items[i]) <= names ensures i in selected {
      assert items[i].id in Names(items[i]);
      MeetAt(Names(items[i]), names, items[i].id);
    }
  }
}
