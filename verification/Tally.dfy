/** Filtering a list, and adding up what its elements contribute to a bag of strings. */
module Tally {
  type Bag = multiset<string>

  ghost function Sum<T>(items: seq<T>, key: T -> Bag): Bag {
    if items == [] then multiset{} else Sum(items[..|items| - 1], key) + key(items[|items| - 1])
  }

  ghost function Keep<T>(items: seq<T>, keep: T -> bool): seq<T> {
    if items == [] then []
    else
      var last := items[|items| - 1];
      Keep(items[..|items| - 1], keep) + if keep(last) then [last] else []
  }

  lemma {:induction false} SumAppend<T>(items: seq<T>, item: T, key: T -> Bag)
    ensures Sum(items + [item], key) == Sum(items, key) + key(item)
  {
    assert (items + [item])[..|items|] == items;
  }

  lemma {:induction false} KeepAppend<T>(items: seq<T>, item: T, keep: T -> bool)
    ensures Keep(items + [item], keep) == Keep(items, keep) + if keep(item) then [item] else []
  {
    assert (items + [item])[..|items|] == items;
  }

  lemma {:induction false} KeepConcat<T>(a: seq<T>, b: seq<T>, keep: T -> bool)
    ensures Keep(a + b, keep) == Keep(a, keep) + Keep(b, keep)
  {
    if b == [] {
      assert a + b == a;
    } else {
      var n := |b| - 1;
      assert (a + b)[..|a| + n] == a + b[..n];
      KeepConcat(a, b[..n], keep);
    }
  }

  lemma {:induction false} SumConcat<T>(a: seq<T>, b: seq<T>, key: T -> Bag)
    ensures Sum(a + b, key) == Sum(a, key) + Sum(b, key)
  {
    hide Sum;
    if b == [] {
      assert a + b == a;
      SumNothing(key);
    } else {
      var n := |b| - 1;
      SumConcat(a, b[..n], key);
      SumAppend(a + b[..n], b[n], key);
      SumAppend(b[..n], b[n], key);
      assert a + b == (a + b[..n]) + [b[n]] && b == b[..n] + [b[n]];
      Associate(Sum(a, key), Sum(b[..n], key), key(b[n]));
    }
  }

  lemma {:induction false} SumNothing<T>(key: T -> Bag)
    ensures Sum([], key) == multiset{}
  {
  }

  lemma {:induction false} Associate(a: Bag, b: Bag, c: Bag)
    ensures a + b + c == a + (b + c)
  {
  }

  lemma {:induction false} Rearrange(a: Bag, b: Bag, c: Bag)
    ensures a + b + c == a + c + b
  {
  }

  lemma {:induction false} SumUpdate<T>(items: seq<T>, i: nat, item: T, key: T -> Bag)
    requires i < |items|
    ensures Sum(items[i := item], key) + key(items[i]) == Sum(items, key) + key(item)
  {
    var n := |items| - 1;
    var before, last := items[..n], items[n];
    if i == n {
      assert items[i := item][..n] == before;
    } else {
      SumUpdate(before, i, item, key);
      var updated := items[i := item];
      assert updated[..n] == before[i := item] && updated[n] == last && before[i] == items[i];
      Rearrange(Sum(before[i := item], key), key(last), key(items[i]));
      Rearrange(Sum(before, key), key(last), key(item));
    }
  }

  lemma {:induction false} KeepMembers<T>(items: seq<T>, keep: T -> bool)
    ensures forall x :: x in Keep(items, keep) <==> x in items && keep(x)
  {
    if items != [] {
      var n := |items| - 1;
      KeepMembers(items[..n], keep);
      assert items == items[..n] + [items[n]];
    }
  }

  /** Dropping elements that contribute nothing changes nothing. */
  lemma {:induction false} SumKeep<T>(items: seq<T>, keep: T -> bool, key: T -> Bag)
    requires forall x | x in items && !keep(x) :: key(x) == multiset{}
    ensures Sum(Keep(items, keep), key) == Sum(items, key)
  {
    if items != [] {
      var n := |items| - 1;
      SumKeep(items[..n], keep, key);
      assert items[n] in items;
      SumAppend(Keep(items[..n], keep), items[n], key);
      assert Keep(items[..n], keep) + [] == Keep(items[..n], keep);
    }
  }

  /** Two disjoint filters that together keep every contributing element cover the sum. */
  lemma {:induction false} SumPartition<T>(items: seq<T>, p: T -> bool, q: T -> bool, key: T -> Bag)
    requires forall x | x in items :: !(p(x) && q(x)) && (!p(x) && !q(x) ==> key(x) == multiset{})
    ensures Sum(Keep(items, p), key) + Sum(Keep(items, q), key) == Sum(items, key)
  {
    if items != [] {
      var n := |items| - 1;
      var before, last := items[..n], items[n];
      SumPartition(before, p, q, key);
      assert last in items;
      SumAppend(Keep(before, p), last, key);
      SumAppend(Keep(before, q), last, key);
      assert Keep(before, p) + [] == Keep(before, p) && Keep(before, q) + [] == Keep(before, q);
    }
  }

  /** Elements that contribute one key each add up to those keys; elements that contribute nothing, to nothing. */
  lemma {:induction false} SumOfKeys<T>(items: seq<T>, keys: seq<string>, key: T -> Bag, some: bool)
    requires |items| == |keys|
    requires forall i | 0 <= i < |items| :: key(items[i]) == if some then multiset{keys[i]} else multiset{}
    ensures Sum(items, key) == if some then multiset(keys) else multiset{}
  {
    if items != [] {
      var n := |items| - 1;
      SumOfKeys(items[..n], keys[..n], key, some);
      assert keys == keys[..n] + [keys[n]];
    }
  }
}
