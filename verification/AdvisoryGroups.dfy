/** Grouping advisories that share an identifier, as the scorer does (`stack-health-scorer.ts`) and as
    the severity lookup does (`advisory-severity.ts`). A group is characterised without any order: it
    is a smallest non-empty set of identifiers that no advisory straddles. */
module AdvisoryGroups {
  import opened Text

  type Ids = set<string>

  predicate Meet(a: Ids, b: Ids) {
    a * b != {}
  }

  lemma MeetAt(a: Ids, b: Ids, id: string)
    requires id in a && id in b
    ensures Meet(a, b) && Meet(b, a)
  {
    assert id in a * b;
  }

  lemma MeetPoint(a: Ids, b: Ids) returns (id: string)
    requires Meet(a, b)
    ensures id in a && id in b
  {
    id :| id in a * b;
  }

  /** No advisory has identifiers both inside and outside. */
  predicate Closed(advisories: set<Ids>, s: Ids) {
    forall a :: a in advisories ==> a <= s || !Meet(a, s)
  }

  /** One connected component of the shares-an-identifier relation: a closed set contained in every
      closed set it meets. */
  ghost predicate Component(advisories: set<Ids>, g: Ids) {
    && g != {} && Closed(advisories, g)
    && forall s :: Closed(advisories, s) && Meet(s, g) ==> g <= s
  }

  predicate Covered(advisories: set<Ids>, groups: set<Ids>) {
    forall a :: a in advisories ==> exists g :: g in groups && a <= g
  }

  predicate Seeded(advisories: set<Ids>, groups: set<Ids>) {
    forall g :: g in groups ==> exists a :: a in advisories && a <= g
  }

  /** The components of the advisories, and nothing else. */
  ghost predicate Groups(advisories: set<Ids>, groups: set<Ids>) {
    (forall g :: g in groups ==> Component(advisories, g)) && Covered(advisories, groups) && Seeded(advisories, groups)
  }

  lemma {:induction false} MeetingComponentsAreEqual(advisories: set<Ids>, g: Ids, h: Ids)
    requires Component(advisories, g) && Component(advisories, h) && Meet(g, h)
    ensures g == h
  {
    hide Closed;
    assert Meet(h, g);
  }

  /** There is only one way to group: the order of the advisories leaves no trace. */
  lemma {:induction false} GroupsAreUnique(advisories: set<Ids>, g: set<Ids>, h: set<Ids>)
    requires Groups(advisories, g) && Groups(advisories, h) && {} !in advisories
    ensures g == h
  {
    hide Component, Meet;
    forall x | x in g ensures x in h { FoundInBoth(advisories, g, h, x); }
    forall x | x in h ensures x in g { FoundInBoth(advisories, h, g, x); }
  }

  lemma GroupOf(advisories: set<Ids>, groups: set<Ids>, a: Ids) returns (g: Ids)
    requires Groups(advisories, groups) && a in advisories
    ensures g in groups && a <= g && Component(advisories, g)
  {
    hide Component;
    g :| g in groups && a <= g;
  }

  lemma SeedOf(advisories: set<Ids>, groups: set<Ids>, g: Ids) returns (a: Ids)
    requires Groups(advisories, groups) && g in groups
    ensures a in advisories && a <= g && Component(advisories, g)
  {
    hide Component;
    a :| a in advisories && a <= g;
  }

  lemma {:induction false} FoundInBoth(advisories: set<Ids>, g: set<Ids>, h: set<Ids>, x: Ids)
    requires Groups(advisories, g) && Groups(advisories, h) && {} !in advisories && x in g
    ensures x in h
  {
    hide Component, Meet, Groups;
    var a := SeedOf(advisories, g, x);
    var y := GroupOf(advisories, h, a);
    assert a != {};
    var id :| id in a;
    MeetAt(x, y, id);
    MeetingComponentsAreEqual(advisories, x, y);
  }

  // ----- one more advisory -----

  function Kept(groups: set<Ids>, ids: Ids): set<Ids> {
    set g | g in groups && !Meet(g, ids)
  }

  function Absorbed(groups: set<Ids>, ids: Ids): Ids {
    ids + (set g, id | g in groups && Meet(g, ids) && id in g :: id)
  }

  lemma {:induction false} AbsorbedIsClosed(advisories: set<Ids>, groups: set<Ids>, ids: Ids)
    requires Groups(advisories, groups)
    ensures Closed(advisories + {ids}, Absorbed(groups, ids))
  {
    hide Component, Meet;
    var all := Absorbed(groups, ids);
    forall a | a in advisories && Meet(a, all) ensures a <= all {
      var g :| g in groups && a <= g;
      var id := MeetPoint(a, all);
      if id in ids { MeetAt(g, ids, id); }
      else {
        var h :| h in groups && Meet(h, ids) && id in h;
        MeetAt(g, h, id);
        MeetingComponentsAreEqual(advisories, g, h);
      }
    }
  }

  lemma {:induction false} AbsorbedIsMinimal(advisories: set<Ids>, groups: set<Ids>, ids: Ids, s: Ids)
    requires Groups(advisories, groups) && Closed(advisories + {ids}, s) && Meet(s, Absorbed(groups, ids))
    ensures Absorbed(groups, ids) <= s
  {
    hide Component, Meet;
    assert Closed(advisories, s);
    var id := MeetPoint(s, Absorbed(groups, ids));
    if id in ids { MeetAt(ids, s, id); }
    else {
      var h :| h in groups && Meet(h, ids) && id in h;
      MeetAt(s, h, id);
      ContainedInClosed(advisories, h, s);
      var common := MeetPoint(h, ids);
      MeetAt(ids, s, common);
    }
    assert ids <= s;
    forall x | x in Absorbed(groups, ids) && x !in ids ensures x in s {
      var h :| h in groups && Meet(h, ids) && x in h;
      var common := MeetPoint(h, ids);
      MeetAt(s, h, common);
      ContainedInClosed(advisories, h, s);
    }
  }

  lemma ContainedInClosed(advisories: set<Ids>, g: Ids, s: Ids)
    requires Component(advisories, g) && Closed(advisories, s) && Meet(s, g)
    ensures g <= s
  {
  }

  lemma {:induction false} KeptStaysComponent(advisories: set<Ids>, g: Ids, ids: Ids)
    requires Component(advisories, g) && !Meet(g, ids)
    ensures Component(advisories + {ids}, g)
  {
    assert !Meet(ids, g);
    forall s | Closed(advisories + {ids}, s) && Meet(s, g) ensures g <= s {
      assert Closed(advisories, s);
    }
  }

  lemma {:induction false} AddKeepsGroups(advisories: set<Ids>, groups: set<Ids>, ids: Ids)
    requires Groups(advisories, groups) && ids != {}
    ensures Groups(advisories + {ids}, Kept(groups, ids) + {Absorbed(groups, ids)})
  {
    hide Component, Meet, Absorbed, Kept, Covered, Seeded;
    AbsorbedIsComponent(advisories, groups, ids);
    KeptStayComponents(advisories, groups, ids);
    AbsorbedCovers(advisories, groups, ids);
  }

  lemma {:induction false} KeptStayComponents(advisories: set<Ids>, groups: set<Ids>, ids: Ids)
    requires Groups(advisories, groups)
    ensures forall g :: g in Kept(groups, ids) ==> Component(advisories + {ids}, g)
  {
    hide Component, Meet;
    forall g | g in Kept(groups, ids) ensures Component(advisories + {ids}, g) { KeptStaysComponent(advisories, g, ids); }
  }

  lemma {:induction false} AbsorbedIsComponent(advisories: set<Ids>, groups: set<Ids>, ids: Ids)
    requires Groups(advisories, groups) && ids != {}
    ensures Component(advisories + {ids}, Absorbed(groups, ids))
  {
    hide Closed, Meet, Groups;
    AbsorbedIsClosed(advisories, groups, ids);
    forall s | Closed(advisories + {ids}, s) && Meet(s, Absorbed(groups, ids)) ensures Absorbed(groups, ids) <= s {
      AbsorbedIsMinimal(advisories, groups, ids, s);
    }
  }

  lemma {:induction false} AbsorbedCovers(advisories: set<Ids>, groups: set<Ids>, ids: Ids)
    requires Groups(advisories, groups)
    ensures Covered(advisories + {ids}, Kept(groups, ids) + {Absorbed(groups, ids)})
    ensures Seeded(advisories + {ids}, Kept(groups, ids) + {Absorbed(groups, ids)})
  {
    hide Component, Meet, Groups;
    var result := Kept(groups, ids) + {Absorbed(groups, ids)};
    forall a | a in advisories + {ids} ensures exists g :: g in result && a <= g {
      var g := if a in advisories then GroupAround(advisories, groups, ids, a) else Absorbed(groups, ids);
      assert g in result && a <= g;
    }
    forall g | g in result ensures exists a :: a in advisories + {ids} && a <= g {
      if g in Kept(groups, ids) {
        var a := SeedOf(advisories, groups, g);
        assert a in advisories + {ids};
      } else {
        assert ids in advisories + {ids} && ids <= g;
      }
    }
  }

  /** The group an old advisory ends up in. */
  ghost function GroupAround(advisories: set<Ids>, groups: set<Ids>, ids: Ids, a: Ids): (g: Ids)
    requires Groups(advisories, groups) && a in advisories
    ensures g in Kept(groups, ids) + {Absorbed(groups, ids)} && a <= g
  {
    var h :| h in groups && a <= h;
    if Meet(h, ids) then Absorbed(groups, ids) else h
  }

  // ----- the scorer's list of groups -----

  function SetOf<T(==)>(items: seq<T>): set<T> {
    set x | x in items
  }

  predicate Apart(groups: seq<Ids>) {
    forall i, j :: 0 <= i < j < |groups| ==> !Meet(groups[i], groups[j])
  }

  function RemoveMeeting(groups: seq<Ids>, ids: Ids): seq<Ids> {
    if groups == [] then []
    else (if Meet(groups[0], ids) then [] else [groups[0]]) + RemoveMeeting(groups[1..], ids)
  }

  /** Absorbs every group that meets `ids` into one, which goes last. */
  function AddAdvisory(groups: seq<Ids>, ids: Ids): seq<Ids> {
    RemoveMeeting(groups, ids) + [Absorbed(SetOf(groups), ids)]
  }

  function Grouped(advisories: seq<Ids>): seq<Ids> {
    if advisories == [] then []
    else AddAdvisory(Grouped(advisories[..|advisories| - 1]), advisories[|advisories| - 1])
  }

  lemma {:induction false} RemovedAreKept(groups: seq<Ids>, ids: Ids)
    ensures SetOf(RemoveMeeting(groups, ids)) == Kept(SetOf(groups), ids)
    decreases |groups|
  {
    hide Meet;
    if groups != [] {
      RemovedAreKept(groups[1..], ids);
      assert groups == [groups[0]] + groups[1..];
      var head := if Meet(groups[0], ids) then [] else [groups[0]];
      assert SetOf(head + RemoveMeeting(groups[1..], ids)) == SetOf(head) + SetOf(RemoveMeeting(groups[1..], ids));
      assert SetOf(groups) == {groups[0]} + SetOf(groups[1..]);
    }
  }

  lemma {:induction false} RemovedStayApart(groups: seq<Ids>, ids: Ids)
    requires Apart(groups)
    ensures Apart(RemoveMeeting(groups, ids))
    decreases |groups|
  {
    hide Meet;
    if groups != [] {
      var rest := groups[1..];
      assert forall i, j :: 0 <= i < j < |rest| ==> !Meet(rest[i], rest[j]) by {
        forall i, j | 0 <= i < j < |rest| ensures !Meet(rest[i], rest[j]) { assert rest[i] == groups[i + 1] && rest[j] == groups[j + 1]; }
      }
      RemovedStayApart(rest, ids);
      RemovedAreKept(rest, ids);
      var kept := RemoveMeeting(rest, ids);
      forall j | 0 <= j < |kept| ensures !Meet(groups[0], kept[j]) {
        assert kept[j] in SetOf(kept);
        var k :| 0 <= k < |rest| && rest[k] == kept[j];
        assert groups[k + 1] == kept[j];
      }
    }
  }

  lemma {:induction false} AddStaysApart(groups: seq<Ids>, ids: Ids)
    requires Apart(groups)
    ensures Apart(AddAdvisory(groups, ids))
  {
    hide Meet;
    RemovedStayApart(groups, ids);
    RemovedAreKept(groups, ids);
    var kept, last := RemoveMeeting(groups, ids), Absorbed(SetOf(groups), ids);
    forall i | 0 <= i < |kept| ensures !Meet(kept[i], last) {
      assert kept[i] in SetOf(kept);
      if Meet(kept[i], last) {
        var id := MeetPoint(kept[i], last);
        if id in ids { MeetAt(kept[i], ids, id); assert false; }
        var h :| h in groups && Meet(h, ids) && id in h;
        DifferentAreApart(groups, kept[i], h);
        MeetAt(kept[i], h, id);
      }
    }
  }

  lemma DifferentAreApart(groups: seq<Ids>, g: Ids, h: Ids)
    requires Apart(groups) && g in groups && h in groups && g != h
    ensures !Meet(g, h)
  {
    var i :| 0 <= i < |groups| && groups[i] == g;
    var j :| 0 <= j < |groups| && groups[j] == h;
    assert if i < j then !Meet(groups[i], groups[j]) else !Meet(groups[j], groups[i]);
  }

  /** The scorer's groups are pairwise disjoint, and are exactly the components. */
  lemma {:induction false} GroupedAreComponents(advisories: seq<Ids>)
    requires {} !in advisories
    ensures Apart(Grouped(advisories)) && Groups(SetOf(advisories), SetOf(Grouped(advisories)))
    decreases |advisories|
  {
    hide Groups, Meet, Component;
    if advisories == [] {
      NoGroups();
      assert SetOf(advisories) == {} && SetOf(Grouped(advisories)) == {};
      return;
    }
    var before, ids := advisories[..|advisories| - 1], advisories[|advisories| - 1];
    GroupedAreComponents(before);
    AddStaysApart(Grouped(before), ids);
    AddKeepsGroups(SetOf(before), SetOf(Grouped(before)), ids);
    RemovedAreKept(Grouped(before), ids);
    assert advisories == before + [ids];
    assert SetOf(advisories) == SetOf(before) + {ids};
    assert SetOf(Grouped(advisories)) == Kept(SetOf(Grouped(before)), ids) + {Absorbed(SetOf(Grouped(before)), ids)};
  }

  lemma NoGroups()
    ensures Groups({}, {})
  {
  }

  lemma {:induction false} ApartListsAreSets(groups: seq<Ids>)
    requires Apart(groups) && {} !in groups
    ensures |SetOf(groups)| == |groups|
    decreases |groups|
  {
    hide Meet;
    if groups != [] {
      var rest := groups[1..];
      assert groups[0] in groups && groups[0] != {};
      var id :| id in groups[0];
      assert Apart(rest) by {
        forall i, j | 0 <= i < j < |rest| ensures !Meet(rest[i], rest[j]) { assert rest[i] == groups[i + 1] && rest[j] == groups[j + 1]; }
      }
      ApartListsAreSets(rest);
      assert SetOf(groups) == {groups[0]} + SetOf(rest);
      if groups[0] in rest {
        var j :| 0 <= j < |rest| && rest[j] == groups[0];
        assert groups[j + 1] == groups[0];
        MeetAt(groups[0], groups[j + 1], id);
      }
    }
  }

  /** So the affected-advisory count is the number of components, the same for every order (and for
      every repetition) of the findings. */
  lemma {:induction false} AdvisoryCountIgnoresOrder(a: seq<Ids>, b: seq<Ids>)
    requires SetOf(a) == SetOf(b) && {} !in a
    ensures |Grouped(a)| == |Grouped(b)| == |SetOf(Grouped(a))|
  {
    hide Grouped, Meet, Component;
    assert ({} in b <==> {} in SetOf(b)) && ({} in a <==> {} in SetOf(a));
    GroupedAreComponents(a);
    GroupedAreComponents(b);
    GroupsAreUnique(SetOf(a), SetOf(Grouped(a)), SetOf(Grouped(b)));
    ComponentsAreNotEmpty(SetOf(a), SetOf(Grouped(a)));
    assert ({} in Grouped(a) <==> {} in SetOf(Grouped(a))) && ({} in Grouped(b) <==> {} in SetOf(Grouped(b)));
    ApartListsAreSets(Grouped(a));
    ApartListsAreSets(Grouped(b));
  }

  lemma ComponentsAreNotEmpty(advisories: set<Ids>, groups: set<Ids>)
    requires Groups(advisories, groups)
    ensures {} !in groups
  {
  }

  /** The scorer's loop: backwards over the groups, absorbing and splicing out those that meet the
      growing group, which is pushed at the end. */
  method MergeAdvisory(groups: seq<Ids>, ids: Ids) returns (merged: seq<Ids>)
    requires Apart(groups)
    ensures merged == AddAdvisory(groups, ids)
  {
    hide Meet;
    var rest := groups;
    var group := ids;
    var i := |groups|;
    while i > 0
      invariant 0 <= i <= |groups|
      invariant rest == groups[..i] + RemoveMeeting(groups[i..], ids)
      invariant group == Absorbed(SetOf(groups[i..]), ids)
    {
      i := i - 1;
      OneMoreGroup(groups, i, ids);
      assert rest[i] == groups[i] && groups[..i + 1] == groups[..i] + [groups[i]];
      if Meet(rest[i], group) {
        group := group + rest[i];
        rest := rest[..i] + rest[i + 1..];
      }
    }
    assert groups[0..] == groups && [] + RemoveMeeting(groups, ids) == RemoveMeeting(groups, ids);
    merged := rest + [group];
  }

  lemma {:induction false} OneMoreGroup(groups: seq<Ids>, i: nat, ids: Ids)
    requires Apart(groups) && i < |groups|
    ensures Meet(groups[i], Absorbed(SetOf(groups[i + 1..]), ids)) <==> Meet(groups[i], ids)
    ensures Absorbed(SetOf(groups[i..]), ids)
      == Absorbed(SetOf(groups[i + 1..]), ids) + (if Meet(groups[i], ids) then groups[i] else {})
    ensures RemoveMeeting(groups[i..], ids)
      == (if Meet(groups[i], ids) then [] else [groups[i]]) + RemoveMeeting(groups[i + 1..], ids)
  {
    hide Meet;
    var later := groups[i + 1..];
    assert groups[i..] == [groups[i]] + later;
    assert SetOf(groups[i..]) == {groups[i]} + SetOf(later);
    if Meet(groups[i], Absorbed(SetOf(later), ids)) {
      var id := MeetPoint(groups[i], Absorbed(SetOf(later), ids));
      if id in ids { MeetAt(groups[i], ids, id); }
      else {
        var h :| h in later && Meet(h, ids) && id in h;
        var n :| 0 <= n < |later| && later[n] == h;
        assert groups[i + 1 + n] == h;
        MeetAt(groups[i], h, id);
      }
    }
    if Meet(groups[i], ids) {
      var id := MeetPoint(groups[i], ids);
      MeetAt(groups[i], Absorbed(SetOf(later), ids), id);
    }
  }
}
