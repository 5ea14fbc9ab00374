/**
 The capability index: requests and pods are grouped by their capability map, matched against a template
 up to extra containers, and looked up again by the printed map.
 */
module Index {
  import opened Spec
  import opened Capabilities

  // Go's m[k]: the empty string for an absent key.
  function Get(m: Caps, k: string): string {
    if k in m then m[k] else ""
  }

  /** The two maps agree on every key, except that m may hold extra containers the input does not ask for. */
  ghost predicate Matches(m: Caps, input: Caps) {
    && (forall k | k != EXTRA_CONTAINERS :: Get(m, k) == Get(input, k))
    && (EXTRA_CONTAINERS in input ==> Get(m, EXTRA_CONTAINERS) == input[EXTRA_CONTAINERS])
  }

  method IsInexactMatch(m: Caps, input: Caps) returns (match_: bool)
    ensures match_ == Matches(m, input)
  {
    var pending := input.Keys;
    while pending != {}
      invariant pending <= input.Keys
      invariant forall k | k in input && k !in pending :: Get(m, k) == input[k]
      decreases |pending|
    {
      var k :| k in pending;
      if Get(m, k) != input[k] {
        return false;
      }
      pending := pending - {k};
    }
    pending := m.Keys;
    while pending != {}
      invariant pending <= m.Keys
      invariant forall k | k in m && k !in pending && k != EXTRA_CONTAINERS :: Get(input, k) == m[k]
      decreases |pending|
    {
      var k :| k in pending;
      if k != EXTRA_CONTAINERS && Get(input, k) != m[k] {
        return false;
      }
      pending := pending - {k};
    }
    return true;
  }

  datatype Group<T> = Group(caps: Caps, items: seq<T>)
  datatype Tagged<T> = Tagged(caps: Caps, item: T)

  /** The position of the group with these capabilities, or the number of groups. */
  function Find<T>(groups: seq<Group<T>>, caps: Caps): (i: nat)
    ensures i <= |groups|
    ensures i < |groups| ==> groups[i].caps == caps
    ensures forall j | 0 <= j < i :: groups[j].caps != caps
  {
    if groups == [] || groups[0].caps == caps then 0 else 1 + Find(groups[1..], caps)
  }

  ghost function AddTo<T>(groups: seq<Group<T>>, caps: Caps, item: T): seq<Group<T>> {
    var i := Find(groups, caps);
    if i < |groups| then groups[i := Group(caps, groups[i].items + [item])] else groups + [Group(caps, [item])]
  }

  ghost function GroupAll<T>(items: seq<Tagged<T>>): seq<Group<T>> {
    if items == [] then []
    else var last := items[|items| - 1]; AddTo(GroupAll(items[..|items| - 1]), last.caps, last.item)
  }

  method AddToGroups<T>(groups: seq<Group<T>>, caps: Caps, item: T) returns (grown: seq<Group<T>>)
    ensures grown == AddTo(groups, caps, item)
  {
    grown := groups;
    for i := 0 to |groups|
      invariant grown == groups
      invariant forall j | 0 <= j < i :: groups[j].caps != caps
    {
      if groups[i].caps == caps {
        grown := groups[i := Group(caps, groups[i].items + [item])];
        return;
      }
    }
    grown := groups + [Group(caps, [item])];
  }

  // The items tagged with exactly these capabilities, in order of arrival.
  ghost function Select<T>(items: seq<Tagged<T>>, caps: Caps): seq<T> {
    if items == [] then []
    else
      var last := items[|items| - 1];
      Select(items[..|items| - 1], caps) + if last.caps == caps then [last.item] else []
  }

  ghost predicate Distinct<T>(groups: seq<Group<T>>) {
    forall i, j | 0 <= i < j < |groups| :: groups[i].caps != groups[j].caps
  }

  ghost predicate HasGroup<T>(groups: seq<Group<T>>, caps: Caps) {
    exists i | 0 <= i < |groups| :: groups[i].caps == caps
  }

  /**
   Grouping conserves the items: each group holds exactly the items with its capabilities, in order of
   arrival, no capabilities have two groups, and every item has its group.
   */
  ghost predicate Conserves<T>(groups: seq<Group<T>>, items: seq<Tagged<T>>) {
    && Distinct(groups)
    && (forall i | 0 <= i < |groups| :: groups[i].items == Select(items, groups[i].caps) != [])
    && (forall i | 0 <= i < |items| :: HasGroup(groups, items[i].caps))
  }

  lemma {:induction false} SelectAppend<T>(items: seq<Tagged<T>>, t: Tagged<T>, caps: Caps)
    ensures Select(items + [t], caps) == Select(items, caps) + if t.caps == caps then [t.item] else []
  {
    assert (items + [t])[..|items|] == items;
  }

  lemma {:induction false} AddToKeepsGroups<T>(groups: seq<Group<T>>, caps: Caps, item: T, other: Caps)
    requires other == caps || HasGroup(groups, other)
    ensures HasGroup(AddTo(groups, caps, item), other)
  {
    var grown := AddTo(groups, caps, item);
    assert grown[Find(groups, caps)].caps == caps;
    if other != caps {
      var g :| 0 <= g < |groups| && groups[g].caps == other;
      assert grown[g].caps == other;
    }
  }

  lemma {:induction false} AddToConserves<T>(groups: seq<Group<T>>, items: seq<Tagged<T>>, t: Tagged<T>)
    requires Conserves(groups, items)
    ensures Conserves(AddTo(groups, t.caps, t.item), items + [t])
  {
    var grown := AddTo(groups, t.caps, t.item);
    var more := items + [t];
    if Find(groups, t.caps) == |groups| {
      NoGroupNothingSelected(groups, items, t.caps);
    }
    forall i | 0 <= i < |grown| ensures grown[i].items == Select(more, grown[i].caps) != [] {
      SelectAppend(items, t, grown[i].caps);
    }
    forall i | 0 <= i < |more| ensures HasGroup(grown, more[i].caps) {
      AddToKeepsGroups(groups, t.caps, t.item, more[i].caps);
    }
  }

  lemma {:induction false} GroupingConserves<T>(items: seq<Tagged<T>>)
    ensures Conserves(GroupAll(items), items)
  {
    if items != [] {
      var n := |items| - 1;
      GroupingConserves(items[..n]);
      AddToConserves(GroupAll(items[..n]), items[..n], items[n]);
      assert items == items[..n] + [items[n]];
    }
  }

  lemma {:induction false} NoGroupNothingSelected<T>(groups: seq<Group<T>>, items: seq<Tagged<T>>, caps: Caps)
    requires !HasGroup(groups, caps)
    requires forall i | 0 <= i < |items| :: HasGroup(groups, items[i].caps)
    ensures Select(items, caps) == []
  {
    if items != [] {
      var n := |items| - 1;
      assert HasGroup(groups, items[n].caps);
      NoGroupNothingSelected(groups, items[..n], caps);
    }
  }

  lemma {:induction false} SelectedHasCaps<T>(items: seq<Tagged<T>>, caps: Caps)
    requires Select(items, caps) != []
    ensures exists i | 0 <= i < |items| :: items[i].caps == caps
  {
    var n := |items| - 1;
    if items[n].caps != caps {
      SelectedHasCaps(items[..n], caps);
      var i :| 0 <= i < n && items[..n][i].caps == caps;
      assert items[i].caps == caps;
    }
  }

  lemma {:induction false} SelectMember<T>(items: seq<Tagged<T>>, caps: Caps, x: T)
    requires x in Select(items, caps)
    ensures exists i | 0 <= i < |items| :: items[i] == Tagged(caps, x)
  {
    var n := |items| - 1;
    if items[n] != Tagged(caps, x) {
      SelectMember(items[..n], caps, x);
      var i :| 0 <= i < n && items[..n][i] == Tagged(caps, x);
      assert items[i] == Tagged(caps, x);
    }
  }

  ghost function MatchMap<T>(groups: seq<Group<T>>, input: Caps): map<string, seq<T>> {
    if groups == [] then map[]
    else
      var g, before := groups[|groups| - 1], MatchMap(groups[..|groups| - 1], input);
      if Matches(g.caps, input) then before[Print(g.caps) := g.items] else before
  }

  method GetInexactMatch<T>(groups: seq<Group<T>>, input: Caps) returns (result: map<string, seq<T>>)
    ensures result == MatchMap(groups, input)
  {
    result := map[];
    for i := 0 to |groups|
      invariant result == MatchMap(groups[..i], input)
    {
      assert groups[..i + 1][..i] == groups[..i];
      var matches := IsInexactMatch(groups[i].caps, input);
      if matches {
        var key := GetSortedStringificationOfCapabilitiesMap(groups[i].caps);
        result := result[key := groups[i].items];
      }
    }
    assert groups[..|groups|] == groups;
  }

  /** Total number of items over all keys, whatever the order they are visited in. */
  ghost function Total<T>(m: map<string, seq<T>>): nat
    decreases |m|
  {
    if m == map[] then 0
    else var k :| k in m; |m[k]| + Total(m - {k})
  }

  lemma {:induction false} TotalWithout<T>(m: map<string, seq<T>>, k: string)
    requires k in m
    ensures Total(m) == |m[k]| + Total(m - {k})
    decreases |m|
  {
    var k' :| k' in m && Total(m) == |m[k']| + Total(m - {k'});
    if k != k' {
      TotalWithout(m - {k'}, k);
      TotalWithout(m - {k}, k');
      assert m - {k} - {k'} == m - {k'} - {k};
    }
  }

  lemma {:induction false} TotalAfterUpdate<T>(m: map<string, seq<T>>, k: string, items: seq<T>)
    ensures Total(m[k := items]) == Total(m) - (if k in m then |m[k]| else 0) + |items|
  {
    var after := m[k := items];
    TotalWithout(after, k);
    assert after - {k} == m - {k};
    if k in m {
      TotalWithout(m, k);
    } else {
      assert m - {k} == m;
    }
  }

  method GetCount<T>(m: map<string, seq<T>>) returns (count: nat)
    ensures count == Total(m)
  {
    count := 0;
    var pending := m;
    while pending != map[]
      invariant count + Total(pending) == Total(m)
      decreases |pending|
    {
      var k :| k in pending;
      TotalWithout(pending, k);
      count := count + |pending[k]|;
      pending := pending - {k};
    }
  }

  /** How many items have capabilities that match the input. */
  ghost function Matching<T>(items: seq<Tagged<T>>, input: Caps): nat {
    if items == [] then 0
    else
      Matching(items[..|items| - 1], input) + if Matches(items[|items| - 1].caps, input) then 1 else 0
  }

  ghost function InGroups<T>(groups: seq<Group<T>>, input: Caps): nat {
    if groups == [] then 0
    else (if Matches(groups[0].caps, input) then |groups[0].items| else 0) + InGroups(groups[1..], input)
  }

  lemma {:induction false} AddToCounts<T>(groups: seq<Group<T>>, caps: Caps, item: T, input: Caps)
    ensures InGroups(AddTo(groups, caps, item), input) ==
            InGroups(groups, input) + if Matches(caps, input) then 1 else 0
  {
    if groups != [] && groups[0].caps != caps {
      assert AddTo(groups, caps, item)[1..] == AddTo(groups[1..], caps, item);
      AddToCounts(groups[1..], caps, item, input);
    }
  }

  lemma {:induction false} GroupsCountMatching<T>(items: seq<Tagged<T>>, input: Caps)
    ensures InGroups(GroupAll(items), input) == Matching(items, input)
  {
    if items != [] {
      var last := items[|items| - 1];
      GroupsCountMatching(items[..|items| - 1], input);
      AddToCounts(GroupAll(items[..|items| - 1]), last.caps, last.item, input);
    }
  }

  /** No two matching groups print alike. */
  ghost predicate PrintApart<T>(groups: seq<Group<T>>, input: Caps) {
    forall i, j | 0 <= i < j < |groups| && Matches(groups[j].caps, input) ::
      !Answers(groups[i].caps, input, Print(groups[j].caps))
  }

  ghost predicate Answers(caps: Caps, input: Caps, s: string) {
    Matches(caps, input) && Print(caps) == s
  }

  lemma {:induction false} MatchMapKeys<T>(groups: seq<Group<T>>, input: Caps, s: string)
    ensures s in MatchMap(groups, input) <==> exists i | 0 <= i < |groups| :: Answers(groups[i].caps, input, s)
    ensures s in MatchMap(groups, input) ==>
              exists i | 0 <= i < |groups| :: Answers(groups[i].caps, input, s) &&
                                              MatchMap(groups, input)[s] == groups[i].items
  {
    if groups != [] {
      var n := |groups| - 1;
      var before := groups[..n];
      MatchMapKeys(before, input, s);
      if Answers(groups[n].caps, input, s) {
        assert MatchMap(groups, input)[s] == groups[n].items;
      } else if s in MatchMap(before, input) {
        var i :| 0 <= i < n && Answers(before[i].caps, input, s) && MatchMap(before, input)[s] == before[i].items;
        assert Answers(groups[i].caps, input, s) && MatchMap(groups, input)[s] == groups[i].items;
      } else {
        assert forall i | 0 <= i < n :: groups[i] == before[i];
      }
    }
  }

  lemma {:induction false} InGroupsSplit<T>(groups: seq<Group<T>>, g: Group<T>, input: Caps)
    ensures InGroups(groups + [g], input) == InGroups(groups, input) + if Matches(g.caps, input) then |g.items| else 0
  {
    if groups != [] {
      assert (groups + [g])[1..] == groups[1..] + [g];
      InGroupsSplit(groups[1..], g, input);
    }
  }

  lemma {:induction false} MatchMapTotal<T>(groups: seq<Group<T>>, input: Caps)
    requires forall i | 0 <= i < |groups| :: groups[i].items != []
    ensures Total(MatchMap(groups, input)) <= InGroups(groups, input)
    ensures Total(MatchMap(groups, input)) == InGroups(groups, input) <==> PrintApart(groups, input)
  {
    if groups != [] {
      var n := |groups| - 1;
      var before, g := groups[..n], groups[n];
      assert forall i | 0 <= i < n :: before[i] == groups[i];
      MatchMapTotal(before, input);
      assert groups == before + [g];
      InGroupsSplit(before, g, input);
      PrintApartSplit(before, g, input);
      if Matches(g.caps, input) {
        TotalAfterUpdate(MatchMap(before, input), Print(g.caps), g.items);
        MatchMapKeys(before, input, Print(g.caps));
      }
    }
  }

  lemma {:induction false} PrintApartSplit<T>(groups: seq<Group<T>>, g: Group<T>, input: Caps)
    ensures PrintApart(groups + [g], input) <==>
            && PrintApart(groups, input)
            && (Matches(g.caps, input) ==>
                  forall i | 0 <= i < |groups| :: !Answers(groups[i].caps, input, Print(g.caps)))
  {
    var all := groups + [g];
    assert forall i | 0 <= i < |groups| :: all[i] == groups[i];
    assert all[|groups|] == g;
  }

  /** The counted matches are all the matching items exactly when no two matching groups print alike. */
  lemma {:induction false} CountExactWhenPrintApart<T>(items: seq<Tagged<T>>, input: Caps)
    ensures Total(MatchMap(GroupAll(items), input)) == Matching(items, input) <==> PrintApart(GroupAll(items), input)
    ensures Total(MatchMap(GroupAll(items), input)) <= Matching(items, input)
  {
    GroupingConserves(items);
    MatchMapTotal(GroupAll(items), input);
    GroupsCountMatching(items, input);
  }

  /** Whatever is found under a key is one of the items, matches the input, and prints as that key. */
  lemma {:induction false} FoundIsMatching<T>(items: seq<Tagged<T>>, input: Caps, s: string, x: T)
    requires s in MatchMap(GroupAll(items), input) && x in MatchMap(GroupAll(items), input)[s]
    ensures exists i | 0 <= i < |items| :: items[i].item == x && Answers(items[i].caps, input, s)
  {
    var groups := GroupAll(items);
    GroupingConserves(items);
    MatchMapKeys(groups, input, s);
    var g :| 0 <= g < |groups| && Answers(groups[g].caps, input, s) && MatchMap(groups, input)[s] == groups[g].items;
    SelectMember(items, groups[g].caps, x);
  }
}
