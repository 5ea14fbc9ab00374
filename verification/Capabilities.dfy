/** Capability maps and their printed form key=value;key=value, sorted by key. */
module Capabilities {
  import opened Spec
  import opened Text

  function Pair(key: string, value: string): string {
    key + "=" + value
  }

  ghost function Pairs(m: Caps, keys: seq<string>): seq<string>
    requires forall k | k in keys :: k in m
  {
    seq(|keys|, i requires 0 <= i < |keys| => Pair(keys[i], m[keys[i]]))
  }

  ghost function Print(m: Caps): string {
    Join(Pairs(m, SortedKeys(m.Keys)), ";")
  }

  method GetSortedStringificationOfCapabilitiesMap(m: Caps) returns (s: string)
    ensures s == Print(m)
  {
    var keys := SortedListing(m.Keys);
    SortedListingUnique(keys, SortedKeys(m.Keys), m.Keys);
    var pairs := [];
    for i := 0 to |keys|
      invariant |pairs| == i
      invariant forall j | 0 <= j < i :: pairs[j] == Pair(keys[j], m[keys[j]])
    {
      pairs := pairs + [keys[i] + "=" + m[keys[i]]];
    }
    assert pairs == Pairs(m, keys);
    s := Join(pairs, ";");
  }

  // Reads "key=value" into the map; a part without '=' is ignored.
  function AddPart(m: Caps, part: string): Caps {
    var cut := Cut(part, "=");
    if cut.found then m[cut.before := cut.after] else m
  }

  function Collect(parts: seq<string>): Caps {
    if parts == [] then map[] else AddPart(Collect(parts[..|parts| - 1]), parts[|parts| - 1])
  }

  function Parse(s: string): Caps {
    Collect(Split(s, ";"))
  }

  method GetCapabilitiesMapFromString(s: string) returns (m: Caps)
    ensures m == Parse(s)
  {
    m := map[];
    var parts := Split(s, ";");
    for i := 0 to |parts|
      invariant m == Collect(parts[..i])
    {
      assert parts[..i + 1][..i] == parts[..i];
      var cut := Cut(parts[i], "=");
      if cut.found {
        m := m[cut.before := cut.after];
      }
    }
    assert parts[..|parts|] == parts;
  }

  /** The pairs are printed by key, in the order of the characters of the keys. */
  lemma {:induction false} PrintsInOrder(m: Caps, keys: seq<string>, pairs: seq<string>)
    requires Lists(keys, m.Keys) && forall i, j | 0 <= i < j < |keys| :: NoLater(keys[i], keys[j])
    requires |pairs| == |keys| && forall i | 0 <= i < |keys| :: keys[i] in m && pairs[i] == keys[i] + "=" + m[keys[i]]
    ensures Print(m) == Join(pairs, ";")
  {
    SortedInOrder(keys);
    hide NoLater, Sorted, Lists;
    SortedListingUnique(keys, SortedKeys(m.Keys), m.Keys);
    assert pairs == Pairs(m, keys) by {
      assert forall k | k in keys :: k in m;
    }
  }

  lemma {:induction false} CollectAnother(parts: seq<string>, part: string)
    ensures Collect(parts + [part]) == AddPart(Collect(parts), part)
  {
    hide AddPart;
    assert (parts + [part])[..|parts|] == parts;
  }

  // What another part does: it adds or overrides one pair, or nothing if it has no separator.
  lemma {:induction false} ParseAnother(s: string, part: string)
    requires ';' !in part
    ensures '=' !in part ==> Parse(s + ";" + part) == Parse(s)
    ensures forall k, v :: part == k + "=" + v && '=' !in k ==> Parse(s + ";" + part) == Parse(s)[k := v]
  {
    SplitAnother(s, part);
    CollectAnother(Split(s, ";"), part);
    hide Split, Cut, Collect;
    if '=' !in part {
      CutNone(part, "=");
    }
    forall k, v | part == k + "=" + v && '=' !in k ensures Parse(s + ";" + part) == Parse(s)[k := v] {
      CutFirst(k, "=", v);
    }
  }

  lemma {:induction false} SplitAnother(s: string, part: string)
    requires ';' !in part
    ensures Split(s + ";" + part, ";") == Split(s, ";") + [part]
  {
    var parts := Split(s, ";");
    SplitRemoves(s, ';');
    JoinSplit(s, ";");
    JoinAppend(parts, part, ";");
    hide Split, Join;
    SplitJoin(parts + [part], ";");
  }

  /** No key holds a separator, and no value holds the separator of pairs. */
  ghost predicate Clean(m: Caps) {
    forall k | k in m :: '=' !in k && ';' !in k && ';' !in m[k]
  }

  lemma {:induction false} CollectClean(parts: seq<string>)
    requires forall p | p in parts :: ';' !in p
    ensures Clean(Collect(parts))
  {
    if parts != [] {
      var part := parts[|parts| - 1];
      CollectClean(parts[..|parts| - 1]);
      var cut := Cut(part, "=");
      assert part in parts;
      if cut.found {
        forall j | 0 <= j < |cut.before| ensures cut.before[j] != '=' {
          assert Occurs(part, "=", j) <==> part[j] == '=';
        }
      }
    }
  }

  lemma {:induction false} CollectPairs(m: Caps, keys: seq<string>, n: nat)
    requires Clean(m) && (forall k | k in keys :: k in m) && n <= |keys|
    ensures Collect(Pairs(m, keys)[..n]) == map k | k in keys[..n] :: m[k]
  {
    hide Clean, Cut;
    if n > 0 {
      CollectPairs(m, keys, n - 1);
      var k := keys[n - 1];
      assert Pairs(m, keys)[..n][..n - 1] == Pairs(m, keys)[..n - 1];
      assert Pairs(m, keys)[..n][n - 1] == Pair(k, m[k]);
      assert keys[..n] == keys[..n - 1] + [k];
      CleanPair(m, map q | q in keys[..n - 1] :: m[q], k);
    }
  }

  lemma {:induction false} CleanPair(m: Caps, before: Caps, k: string)
    requires Clean(m) && k in m
    ensures AddPart(before, Pair(k, m[k])) == before[k := m[k]]
  {
    CutFirst(k, "=", m[k]);
  }

  lemma {:induction false} ParseIsClean(s: string)
    ensures Clean(Parse(s))
  {
    SplitRemoves(s, ';');
    CollectClean(Split(s, ";"));
  }

  lemma {:induction false} ParsePrint(m: Caps)
    requires Clean(m)
    ensures Parse(Print(m)) == m
  {
    hide Collect, Split, Join, Clean, Sorted;
    var keys := SortedKeys(m.Keys);
    var pairs := Pairs(m, keys);
    assert forall k :: k in m <==> k in keys;
    if keys == [] {
      assert m == map[] && pairs == [];
      ParseNothing();
    } else {
      CleanPairs(m, keys);
      SplitJoin(pairs, ";");
      CollectPairs(m, keys, |keys|);
      assert pairs[..|keys|] == pairs && keys[..|keys|] == keys;
    }
  }

  lemma {:induction false} ParseNothing()
    ensures Join([], ";") == "" && Parse("") == map[]
  {
    CutNone("", ";");
    CutNone("", "=");
    assert Split("", ";") == [""];
  }

  lemma {:induction false} CleanPairs(m: Caps, keys: seq<string>)
    requires Clean(m) && forall k | k in keys :: k in m
    ensures forall p | p in Pairs(m, keys) :: ';' !in p
  {
    var pairs := Pairs(m, keys);
    forall i | 0 <= i < |pairs| ensures ';' !in pairs[i] {
      assert keys[i] in keys;
      assert pairs[i] == keys[i] + "=" + m[keys[i]];
    }
  }

  /** Parsing undoes printing exactly on the maps without misplaced separators. */
  lemma {:induction false} RoundTripExactlyWhenClean(m: Caps)
    ensures Parse(Print(m)) == m <==> Clean(m)
  {
    ParseIsClean(Print(m));
    if Clean(m) {
      ParsePrint(m);
    }
  }

  /** On maps without misplaced separators, the printed form identifies the map. */
  lemma {:induction false} PrintInjective(a: Caps, b: Caps)
    requires Clean(a) && Clean(b)
    ensures Print(a) == Print(b) <==> a == b
  {
    ParsePrint(a);
    ParsePrint(b);
  }

  /** What a capability string read from a pod is grouped under is stable: printing it and reading it back changes nothing. */
  lemma {:induction false} ParsePrintParse(s: string)
    ensures Parse(Print(Parse(s))) == Parse(s)
  {
    ParseIsClean(s);
    RoundTripExactlyWhenClean(Parse(s));
  }
}
