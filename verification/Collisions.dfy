/**
 When the printed map can stand for the map: matching groups of requests never share a key unless some
 demand value is empty.
 */
module Collisions {
  import opened Spec
  import opened Text
  import opened Capabilities
  import opened Index
  import opened Requests

  ghost predicate NoEmptyValue(m: Caps) {
    forall k | k in m :: m[k] != ""
  }

  // Replacing one part of a joined string by another is visible.
  lemma {:induction false} JoinCancels(a: seq<string>, b: seq<string>, sep: string, i: nat)
    requires |a| == |b| && i < |a|
    requires forall j | 0 <= j < |a| && j != i :: a[j] == b[j]
    requires Join(a, sep) == Join(b, sep)
    ensures a[i] == b[i]
  {
    if |a| > 1 {
      var x, y := Join(a[1..], sep), Join(b[1..], sep);
      if i == 0 {
        assert a[1..] == b[1..];
        assert |a[0] + sep + x| == |b[0] + sep + y|;
        assert (a[0] + sep + x)[..|a[0]|] == a[0] && (b[0] + sep + y)[..|b[0]|] == b[0];
      } else {
        assert (a[0] + sep + x)[|a[0] + sep|..] == x && (b[0] + sep + y)[|b[0] + sep|..] == y;
        JoinCancels(a[1..], b[1..], sep, i - 1);
      }
    }
  }

  // Inserting a non-empty part makes a joined string longer.
  lemma {:induction false} JoinGrows(a: seq<string>, part: string, sep: string, i: nat)
    requires i <= |a| && part != ""
    ensures |Join(a[..i] + [part] + a[i..], sep)| > |Join(a, sep)|
  {
    var b := a[..i] + [part] + a[i..];
    if i == 0 {
      assert b == [part] + a && b[1..] == a;
    } else {
      assert b[0] == a[0] && b[1..] == a[1..][..i - 1] + [part] + a[1..][i - 1..];
      JoinGrows(a[1..], part, sep, i - 1);
    }
  }

  lemma {:induction false} ExtraValueShows(a: Caps, b: Caps, k: string)
    requires k in a && a.Keys == b.Keys && forall j | j in a && j != k :: a[j] == b[j]
    requires Print(a) == Print(b)
    ensures a == b
  {
    var keys := SortedKeys(a.Keys);
    var i :| 0 <= i < |keys| && keys[i] == k;
    var p, q := Pairs(a, keys), Pairs(b, keys);
    JoinCancels(p, q, ";", i);
    assert p[i] == Pair(k, a[k]) && q[i] == Pair(k, b[k]);
    assert p[i][|k + "="|..] == a[k] && q[i][|k + "="|..] == b[k];
  }

  lemma {:induction false} SortedKeysGrow(keys: set<string>, k: string) returns (i: nat)
    requires k !in keys
    ensures i <= |SortedKeys(keys)|
    ensures SortedKeys(keys + {k}) == SortedKeys(keys)[..i] + [k] + SortedKeys(keys)[i..]
  {
    var sorted := SortedKeys(keys);
    i := InsertionPoint(sorted, k);
    InsertSorted(sorted, k, i, keys);
    SortedListingUnique(sorted[..i] + [k] + sorted[i..], SortedKeys(keys + {k}), keys + {k});
  }

  lemma {:induction false} PairsGrow(a: Caps, b: Caps, keys: seq<string>, k: string, i: nat)
    requires k in a && i <= |keys| && forall j | j in keys :: j in a && j in b && a[j] == b[j]
    ensures Pairs(a, keys[..i] + [k] + keys[i..]) == Pairs(b, keys)[..i] + [Pair(k, a[k])] + Pairs(b, keys)[i..]
  {
    var longer := keys[..i] + [k] + keys[i..];
    var p, q := Pairs(a, longer), Pairs(b, keys)[..i] + [Pair(k, a[k])] + Pairs(b, keys)[i..];
    forall n | 0 <= n < |p| ensures p[n] == q[n] {
      assert longer[n] == if n < i then keys[n] else if n == i then k else keys[n - 1];
    }
  }

  lemma {:induction false} ExtraKeyShows(a: Caps, b: Caps, k: string)
    requires k in a && k !in b && a - {k} == b
    ensures Print(a) != Print(b)
  {
    var keys := SortedKeys(b.Keys);
    var i := SortedKeysGrow(b.Keys, k);
    assert a.Keys == b.Keys + {k};
    assert forall j | j in keys :: j in b;
    PairsGrow(a, b, keys, k, i);
    JoinGrows(Pairs(b, keys), Pair(k, a[k]), ";", i);
  }

  /** Two maps without empty values that match the same template print alike only if they are the same map. */
  lemma {:induction false} MatchesPrintApart(a: Caps, b: Caps, input: Caps)
    requires NoEmptyValue(a) && NoEmptyValue(b) && Matches(a, input) && Matches(b, input)
    requires Print(a) == Print(b)
    ensures a == b
  {
    hide Print;
    var extra := EXTRA_CONTAINERS;
    forall k | k != extra ensures (k in a <==> k in b) && (k in a ==> a[k] == b[k]) {
      assert Get(a, k) == Get(input, k) == Get(b, k);
    }
    if extra in a && extra in b {
      assert a.Keys == b.Keys;
      ExtraValueShows(a, b, extra);
    } else if extra in a {
      assert a - {extra} == b;
      ExtraKeyShows(a, b, extra);
    } else if extra in b {
      assert b - {extra} == a;
      ExtraKeyShows(b, a, extra);
    } else {
      assert a == b;
    }
  }

  /** Without empty demand values, the job count of a match is the number of matching requests. */
  lemma {:induction false} JobCountExact<T>(items: seq<Tagged<T>>, input: Caps)
    requires forall i | 0 <= i < |items| :: NoEmptyValue(items[i].caps)
    ensures Total(MatchMap(GroupAll(items), input)) == Matching(items, input)
  {
    var groups := GroupAll(items);
    GroupingConserves(items);
    forall i | 0 <= i < |groups| ensures NoEmptyValue(groups[i].caps) {
      SelectedHasCaps(items, groups[i].caps);
    }
    forall i, j | 0 <= i < j < |groups| && Matches(groups[j].caps, input)
      ensures !Answers(groups[i].caps, input, Print(groups[j].caps))
    {
      if Answers(groups[i].caps, input, Print(groups[j].caps)) {
        MatchesPrintApart(groups[i].caps, groups[j].caps, input);
      }
    }
    CountExactWhenPrintApart(items, input);
  }

  /**
   With empty values the count can be too low: {x: "", y: ""} and {"x=;y": ""} both match a template without
   capabilities, print alike, and the later group replaces the earlier one.
   */
  lemma {:induction false} EmptyValuesCollide<T>(first: T, second: T)
    ensures var a: Caps, b: Caps := map["x" := "", "y" := ""], map["x=;y" := ""];
            var items := [Tagged(a, first), Tagged(b, second)];
            && Print(a) == Print(b)
            && Matching(items, map[]) == 2 && Total(MatchMap(GroupAll(items), map[])) == 1
  {
    var a: Caps, b: Caps := map["x" := "", "y" := ""], map["x=;y" := ""];
    assert Leq("x", "y");
    SortedListingUnique(["x", "y"], SortedKeys(a.Keys), a.Keys);
    SortedListingUnique(["x=;y"], SortedKeys(b.Keys), b.Keys);
    assert Pair("x", "") == "x=" && Pair("y", "") == "y=" && Pair("x=;y", "") == "x=;y=";
    assert Pairs(a, ["x", "y"]) == ["x=", "y="] && Pairs(b, ["x=;y"]) == ["x=;y="];
    assert Join(["x=", "y="], ";") == "x=" + ";" + "y=" == "x=;y=";
    LaterGroupReplaces(a, b, first, second);
  }

  // What a demand without a value is read as.
  lemma {:induction false} EmptyDemand(m: Caps, key: string)
    requires key != "" && key[0] != 'A' && forall i | 0 <= i < |key| :: !IsSpace(key[i])
    ensures AddDemand(m, key + EQUALS) == m[key := ""]
  {
    var demand := key + EQUALS;
    assert ' ' !in key;
    assert demand == Join([key, ""], EQUALS);
    SplitJoin([key, ""], EQUALS);
    assert demand[0] == key[0] && VERSION_DEMAND[0] == 'A';
    assert TrimSpace(key) == key && TrimSpace("") == "";
  }

  lemma {:induction false} DemandsOfTwo(a: string, b: string)
    ensures DemandsOf([a]) == AddDemand(map[], a)
    ensures DemandsOf([a, b]) == AddDemand(AddDemand(map[], a), b)
  {
    hide AddDemand;
    assert [a][..0] == [] && [a, b][..1] == [a];
  }

  lemma {:induction false} PendingOfTwo(a: Request, b: Request)
    requires !a.finished && !b.finished
    ensures PendingOf([a, b]) == [TagRequest(a), TagRequest(b)]
  {
    hide TagRequest;
    assert [a, b][..1] == [a] && [a][..0] == [];
    assert PendingOf([a]) == [TagRequest(a)];
  }

  /** The same from the platform: of two requests a template without capabilities could serve, one is not counted. */
  lemma {:induction false} EmptyDemandsLoseARequest(first: Request, second: Request)
    requires first.demands == ["x" + EQUALS, "y" + EQUALS] && second.demands == ["x=;y" + EQUALS]
    requires !first.finished && !second.finished
    ensures Matching(PendingOf([first, second]), map[]) == 2
    ensures Total(MatchMap(GroupAll(PendingOf([first, second])), map[])) == 1
  {
    EmptyDemand(map[], "x");
    EmptyDemand(map["x" := ""], "y");
    EmptyDemand(map[], "x=;y");
    hide DemandsOf, AddDemand, MatchMap, GroupAll, Print, PendingOf, Total, Matching;
    DemandsOfTwo("x" + EQUALS, "y" + EQUALS);
    DemandsOfTwo("x=;y" + EQUALS, "");
    PendingOfTwo(first, second);
    EmptyValuesCollide(first, second);
  }

  // The general shape of the loss: two groups with one key.
  lemma {:induction false} LaterGroupReplaces<T>(a: Caps, b: Caps, first: T, second: T)
    requires a != b && Print(a) == Print(b) && Matches(a, map[]) && Matches(b, map[])
    ensures var items := [Tagged(a, first), Tagged(b, second)];
            Matching(items, map[]) == 2 && Total(MatchMap(GroupAll(items), map[])) == 1
  {
    var items := [Tagged(a, first), Tagged(b, second)];
    var groups := [Group(a, [first]), Group(b, [second])];
    assert items[..1] == [Tagged(a, first)] && items[..1][..0] == [];
    assert Matching(items[..1], map[]) == 1;
    GroupsOfTwo(a, b, first, second);
    MatchMapOfTwo(a, b, first, second);
    hide GroupAll, MatchMap, Print;
    var only := map[Print(b) := [second]];
    TotalWithout(only, Print(b));
    assert only - {Print(b)} == map[];
  }

  lemma {:induction false} GroupsOfTwo<T>(a: Caps, b: Caps, first: T, second: T)
    requires a != b
    ensures GroupAll([Tagged(a, first), Tagged(b, second)]) == [Group(a, [first]), Group(b, [second])]
  {
    var items := [Tagged(a, first), Tagged(b, second)];
    assert items[..1] == [Tagged(a, first)] && items[..1][..0] == [];
    assert GroupAll(items[..1]) == [Group(a, [first])];
  }

  lemma {:induction false} MatchMapOfTwo<T>(a: Caps, b: Caps, first: T, second: T)
    requires Print(a) == Print(b) && Matches(a, map[]) && Matches(b, map[])
    ensures MatchMap([Group(a, [first]), Group(b, [second])], map[]) == map[Print(b) := [second]]
  {
    hide Print, Matches;
    var groups := [Group(a, [first]), Group(b, [second])];
    assert groups[..1] == [Group(a, [first])] && groups[..1][..0] == [];
    assert MatchMap(groups[..1], map[]) == map[Print(a) := [first]];
  }

  /**
   Without empty values, matching is equality up to extra containers, which have to be the same only if the
   template asks for some.
   */
  lemma {:induction false} MatchesExactlyWhenSame(m: Caps, input: Caps)
    requires NoEmptyValue(m) && NoEmptyValue(input)
    ensures Matches(m, input) <==>
            && m - {"ExtraAgentContainers"} == input - {"ExtraAgentContainers"}
            && ("ExtraAgentContainers" in input ==>
                  "ExtraAgentContainers" in m && m["ExtraAgentContainers"] == input["ExtraAgentContainers"])
  {
    var a, b := m - {EXTRA_CONTAINERS}, input - {EXTRA_CONTAINERS};
    if Matches(m, input) {
      forall k ensures (k in a <==> k in b) && (k in a ==> a[k] == b[k]) {
        assert k != EXTRA_CONTAINERS ==> Get(m, k) == Get(input, k);
      }
    }
    if a == b {
      forall k | k != EXTRA_CONTAINERS ensures Get(m, k) == Get(input, k) {
        assert (k in a <==> k in m) && (k in b <==> k in input);
        assert k in m ==> a[k] == m[k] && b[k] == input[k];
      }
    }
  }

  /** Templates with different capabilities, no empty values and no extra containers never claim the same pod. */
  lemma {:induction false} TemplatesDoNotOverlap(a: Caps, b: Caps, m: Caps)
    requires NoEmptyValue(a) && NoEmptyValue(b) && EXTRA_CONTAINERS !in a && EXTRA_CONTAINERS !in b
    requires Matches(m, a) && Matches(m, b)
    ensures a == b
  {
    forall k ensures (k in a <==> k in b) && (k in a ==> a[k] == b[k]) {
      if k != EXTRA_CONTAINERS {
        assert Get(a, k) == Get(m, k) == Get(b, k);
      }
    }
  }
}
