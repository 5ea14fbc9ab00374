/** Grouped items seen as a bag of printed keys: how often each key occurs among the matching items. */
module Bags {
  import opened Spec
  import opened Capabilities
  import opened Index

  ghost function Bag<T>(items: seq<Tagged<T>>, input: Caps): multiset<string> {
    if items == [] then multiset{}
    else
      var caps := items[|items| - 1].caps;
      Bag(items[..|items| - 1], input) + if Matches(caps, input) then multiset{Print(caps)} else multiset{}
  }

  function Len<T>(m: map<string, seq<T>>, s: string): nat {
    if s in m then |m[s]| else 0
  }

  /** The map holds as many items under each key as the bag says, and as many in all. */
  ghost predicate Represents<T>(m: map<string, seq<T>>, bag: multiset<string>) {
    Total(m) == |bag| && forall s :: Len(m, s) == bag[s]
  }

  lemma {:induction false} BagSize<T>(items: seq<Tagged<T>>, input: Caps)
    ensures |Bag(items, input)| == Matching(items, input)
  {
    if items != [] {
      BagSize(items[..|items| - 1], input);
    }
  }

  lemma {:induction false} BagStep<T>(items: seq<Tagged<T>>, t: Tagged<T>, input: Caps, s: string)
    ensures Bag(items + [t], input)[s] == Bag(items, input)[s] + if Answers(t.caps, input, s) then 1 else 0
  {
    assert (items + [t])[..|items|] == items;
  }

  lemma {:induction false} SelectLength<T>(items: seq<Tagged<T>>, caps: Caps, input: Caps, s: string)
    requires Answers(caps, input, s)
    requires forall i | 0 <= i < |items| && Answers(items[i].caps, input, s) :: items[i].caps == caps
    ensures |Select(items, caps)| == Bag(items, input)[s]
  {
    if items != [] {
      var n := |items| - 1;
      var before := items[..n];
      assert forall i | 0 <= i < n :: before[i] == items[i];
      SelectLength(before, caps, input, s);
      var last := items[n].caps;
      assert Answers(last, input, s) <==> last == caps;
      BagStep(before, items[n], input, s);
      SelectAppend(before, items[n], caps);
      assert items == before + [items[n]];
    }
  }

  lemma {:induction false} NobodyAnswers<T>(items: seq<Tagged<T>>, input: Caps, s: string)
    requires forall i | 0 <= i < |items| :: !Answers(items[i].caps, input, s)
    ensures Bag(items, input)[s] == 0
  {
    if items != [] {
      var n := |items| - 1;
      assert forall i | 0 <= i < n :: items[..n][i] == items[i];
      NobodyAnswers(items[..n], input, s);
      assert !Answers(items[n].caps, input, s);
    }
  }

  lemma {:induction false} LookupRepresents<T>(items: seq<Tagged<T>>, input: Caps)
    requires PrintApart(GroupAll(items), input)
    ensures Represents(MatchMap(GroupAll(items), input), Bag(items, input))
  {
    var groups := GroupAll(items);
    var m := MatchMap(groups, input);
    GroupingConserves(items);
    CountExactWhenPrintApart(items, input);
    BagSize(items, input);
    forall s ensures Len(m, s) == Bag(items, input)[s] {
      MatchMapKeys(groups, input, s);
      if s in m {
        var g :| 0 <= g < |groups| && Answers(groups[g].caps, input, s) && m[s] == groups[g].items;
        forall i | 0 <= i < |items| && Answers(items[i].caps, input, s) ensures items[i].caps == groups[g].caps {
          OnlyOneAnswers(groups, input, s, g, items[i].caps);
        }
        SelectLength(items, groups[g].caps, input, s);
      } else {
        forall i | 0 <= i < |items| ensures !Answers(items[i].caps, input, s) {
          assert HasGroup(groups, items[i].caps);
        }
        NobodyAnswers(items, input, s);
      }
    }
  }

  lemma {:induction false} OnlyOneAnswers<T>(groups: seq<Group<T>>, input: Caps, s: string, g: nat, caps: Caps)
    requires PrintApart(groups, input) && g < |groups| && Answers(groups[g].caps, input, s)
    requires HasGroup(groups, caps) && Answers(caps, input, s)
    ensures caps == groups[g].caps
  {
    var h :| 0 <= h < |groups| && groups[h].caps == caps;
  }
}
