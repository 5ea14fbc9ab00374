/** Strings: splitting, joining and sorting, as Go's strings and sort packages define them. */
module Text {

  predicate Occurs(s: string, sep: string, i: nat) {
    i + |sep| <= |s| && s[i..i + |sep|] == sep
  }

  /** Position of the first occurrence of sep, or -1. */
  function Index(s: string, sep: string): (i: int)
    ensures -1 <= i
    ensures i >= 0 ==> Occurs(s, sep, i)
    ensures forall j: nat | Occurs(s, sep, j) :: 0 <= i <= j
  {
    IndexFrom(s, sep, 0)
  }

  function IndexFrom(s: string, sep: string, start: nat): (i: int)
    requires start <= |s|
    ensures i == -1 || start <= i
    ensures i >= 0 ==> Occurs(s, sep, i)
    ensures forall j: nat | start <= j && Occurs(s, sep, j) :: 0 <= i <= j
    decreases |s| - start
  {
    if Occurs(s, sep, start) then start
    else if start == |s| then -1
    else IndexFrom(s, sep, start + 1)
  }

  /** Text before and after the first occurrence of sep; found tells whether there is one. */
  datatype Cutting = Cutting(before: string, after: string, found: bool)

  function Cut(s: string, sep: string): Cutting {
    var i := Index(s, sep);
    if i < 0 then Cutting(s, "", false) else Cutting(s[..i], s[i + |sep|..], true)
  }

  function Split(s: string, sep: string): (parts: seq<string>)
    requires sep != ""
    ensures |parts| > 0
    decreases |s|
  {
    var cut := Cut(s, sep);
    if cut.found then [cut.before] + Split(cut.after, sep) else [s]
  }

  function Join(parts: seq<string>, sep: string): string {
    if parts == [] then ""
    else if |parts| == 1 then parts[0]
    else parts[0] + sep + Join(parts[1..], sep)
  }

  lemma {:induction false} CutFirst(before: string, sep: string, after: string)
    requires sep != "" && sep[0] !in before
    ensures Cut(before + sep + after, sep) == Cutting(before, after, true)
  {
    var s := before + sep + after;
    assert Occurs(s, sep, |before|);
    assert s[Index(s, sep)] == sep[0];
    assert forall j | 0 <= j < |before| :: s[j] == before[j];
    assert s[..|before|] == before && s[|before| + |sep|..] == after;
  }

  lemma {:induction false} CutNone(s: string, sep: string)
    requires sep != "" && sep[0] !in s
    ensures !Cut(s, sep).found
  {
  }

  lemma {:induction false} SplitJoin(parts: seq<string>, sep: string)
    requires sep != "" && parts != [] && forall p | p in parts :: sep[0] !in p
    ensures Split(Join(parts, sep), sep) == parts
  {
    hide Cut, Split;
    if |parts| == 1 {
      SplitNone(parts[0], sep);
    } else {
      SplitJoin(parts[1..], sep);
      SplitFirst(parts[0], sep, Join(parts[1..], sep));
      assert Join(parts, sep) == parts[0] + sep + Join(parts[1..], sep);
      assert parts == [parts[0]] + parts[1..];
    }
  }

  lemma {:induction false} SplitNone(s: string, sep: string)
    requires sep != "" && sep[0] !in s
    ensures Split(s, sep) == [s]
  {
    CutNone(s, sep);
  }

  lemma {:induction false} SplitFirst(before: string, sep: string, after: string)
    requires sep != "" && sep[0] !in before
    ensures Split(before + sep + after, sep) == [before] + Split(after, sep)
  {
    CutFirst(before, sep, after);
    hide Cut;
  }

  lemma {:induction false} JoinSplit(s: string, sep: string)
    requires sep != ""
    ensures Join(Split(s, sep), sep) == s
    decreases |s|
  {
    var cut := Cut(s, sep);
    if cut.found {
      JoinSplit(cut.after, sep);
      var i := Index(s, sep);
      assert s == s[..i] + s[i..i + |sep|] + s[i + |sep|..];
    }
  }

  lemma {:induction false} SplitNowhere(s: string, sep: string)
    requires sep != "" && forall j: nat :: !Occurs(s, sep, j)
    ensures Split(s, sep) == [s]
  {
  }

  lemma {:induction false} OccursBehind(s: string, sep: string, n: nat, k: nat)
    requires n <= |s|
    ensures Occurs(s[n..], sep, k) <==> Occurs(s, sep, n + k)
  {
    if n + k + |sep| <= |s| {
      assert s[n..][k..k + |sep|] == s[n + k..n + k + |sep|];
    }
  }

  ghost predicate OccursFrom(s: string, sep: string, n: nat) {
    exists k: nat :: n <= k && Occurs(s, sep, k)
  }

  lemma {:induction false} OccursInRest(s: string, sep: string, n: nat)
    requires n <= |s|
    ensures OccursFrom(s, sep, n) <==> exists k: nat :: Occurs(s[n..], sep, k)
  {
    hide Occurs;
    if k: nat :| n <= k && Occurs(s, sep, k) {
      OccursBehind(s, sep, n, k - n);
    }
    if k: nat :| Occurs(s[n..], sep, k) {
      OccursBehind(s, sep, n, k);
    }
  }

  lemma {:induction false} SplitOnce(s: string, sep: string, j: nat)
    requires sep != "" && Occurs(s, sep, j) && forall i: nat | i < j :: !Occurs(s, sep, i)
    ensures j + |sep| <= |s| && Split(s, sep) == [s[..j]] + Split(s[j + |sep|..], sep)
  {
    assert Index(s, sep) == j;
    hide Index;
  }

  lemma {:induction false} SplitAtFirst(s: string, sep: string, j: nat)
    requires sep != "" && Occurs(s, sep, j) && forall i: nat | i < j :: !Occurs(s, sep, i)
    ensures j + |sep| <= |s|
    ensures if OccursFrom(s, sep, j + |sep|) then |Split(s, sep)| > 2 else Split(s, sep) == [s[..j], s[j + |sep|..]]
  {
    SplitOnce(s, sep, j);
    OccursInRest(s, sep, j + |sep|);
    hide Occurs, Split, OccursFrom;
    var rest := s[j + |sep|..];
    if k: nat :| Occurs(rest, sep, k) {
      SplitSomewhere(rest, sep, k);
    } else {
      SplitNowhere(rest, sep);
    }
  }

  lemma {:induction false} SplitSomewhere(s: string, sep: string, k: nat)
    requires sep != "" && Occurs(s, sep, k)
    ensures |Split(s, sep)| >= 2
  {
  }

  lemma {:induction false} JoinAppend(parts: seq<string>, part: string, sep: string)
    requires parts != []
    ensures Join(parts + [part], sep) == Join(parts, sep) + sep + part
  {
    if |parts| > 1 {
      JoinAppend(parts[1..], part, sep);
      assert (parts + [part])[1..] == parts[1..] + [part];
    } else {
      assert (parts + [part])[1..] == [part];
    }
  }

  lemma {:induction false} SplitRemoves(s: string, c: char)
    ensures forall p | p in Split(s, [c]) :: c !in p
    decreases |s|
  {
    var cut := Cut(s, [c]);
    forall j | 0 <= j < |cut.before| ensures cut.before[j] != c {
      assert Occurs(s, [c], j) <==> s[j] == c;
    }
    if cut.found {
      SplitRemoves(cut.after, c);
    }
  }

  /** The lexicographic order sort.Strings uses. */
  predicate Leq(a: string, b: string) {
    a == "" || (b != "" && (a[0] < b[0] || (a[0] == b[0] && Leq(a[1..], b[1..]))))
  }

  lemma {:induction false} LeqTotal(a: string, b: string)
    ensures Leq(a, b) || Leq(b, a)
    ensures Leq(a, b) && Leq(b, a) ==> a == b
  {
    if a != "" && b != "" && a[0] == b[0] {
      LeqTotal(a[1..], b[1..]);
      assert a == [a[0]] + a[1..] && b == [b[0]] + b[1..];
    }
  }

  lemma {:induction false} LeqTransitive(a: string, b: string, c: string)
    requires Leq(a, b) && Leq(b, c)
    ensures Leq(a, c)
  {
    if a != "" && a[0] == b[0] == c[0] {
      LeqTransitive(a[1..], b[1..], c[1..]);
    }
  }

  // The i-th character is the first that differs, and is smaller in a.
  ghost predicate SmallerAt(a: string, b: string, i: nat) {
    i < |a| && i < |b| && a[..i] == b[..i] && a[i] < b[i]
  }

  /** Prefixes first; otherwise the first character that differs decides. */
  ghost predicate NoLater(a: string, b: string) {
    a <= b || exists i: nat :: SmallerAt(a, b, i)
  }

  lemma {:induction false} LeqExactlyWhenNoLater(a: string, b: string)
    ensures Leq(a, b) <==> NoLater(a, b)
  {
    if a != "" && b != "" {
      var c, d := a[1..], b[1..];
      assert a == [a[0]] + c && b == [b[0]] + d;
      if a[0] == b[0] {
        LeqExactlyWhenNoLater(c, d);
        NoLaterBehind(a[0], c, d);
      } else {
        FirstDecides(a[0], b[0], c, d);
      }
    }
  }

  lemma {:induction false} FirstDecides(x: char, y: char, c: string, d: string)
    requires x != y
    ensures NoLater([x] + c, [y] + d) <==> x < y
  {
    var a, b := [x] + c, [y] + d;
    assert a[0] == x && b[0] == y;
    if x < y {
      assert SmallerAt(a, b, 0);
    }
    forall i: nat | i > 0 ensures !SmallerAt(a, b, i) {
      if i < |a| && i < |b| {
        assert a[..i][0] == x && b[..i][0] == y;
      }
    }
  }

  lemma {:induction false} NoLaterBehind(x: char, c: string, d: string)
    ensures NoLater([x] + c, [x] + d) <==> NoLater(c, d)
  {
    var a, b := [x] + c, [x] + d;
    PrefixBehind(x, c, d);
    forall i: nat ensures SmallerAt(a, b, i + 1) <==> SmallerAt(c, d, i) {
      SmallerBehind(x, c, d, i);
    }
    if i: nat :| SmallerAt(c, d, i) {
      assert SmallerAt(a, b, i + 1);
    }
    if i: nat :| SmallerAt(a, b, i) {
      assert i > 0 by { assert a[0] == b[0]; }
      SmallerBehind(x, c, d, i - 1);
    }
  }

  lemma {:induction false} PrefixBehind(x: char, c: string, d: string)
    ensures [x] + c <= [x] + d <==> c <= d
  {
    var a, b := [x] + c, [x] + d;
    if |c| <= |d| {
      assert b[..|a|] == [x] + d[..|c|];
      assert a[1..] == c && ([x] + d[..|c|])[1..] == d[..|c|];
    }
  }

  lemma {:induction false} SmallerBehind(x: char, c: string, d: string, i: nat)
    ensures SmallerAt([x] + c, [x] + d, i + 1) <==> SmallerAt(c, d, i)
  {
    var a, b := [x] + c, [x] + d;
    if i < |c| && i < |d| {
      assert a[..i + 1] == [x] + c[..i] && b[..i + 1] == [x] + d[..i];
      assert ([x] + c[..i])[1..] == c[..i] && ([x] + d[..i])[1..] == d[..i];
      assert a[i + 1] == c[i] && b[i + 1] == d[i];
    }
  }

  ghost predicate Sorted(s: seq<string>) {
    forall i, j | 0 <= i < j < |s| :: Leq(s[i], s[j])
  }

  ghost predicate Lists(s: seq<string>, keys: set<string>) {
    && (forall k :: k in s <==> k in keys)
    && (forall i, j | 0 <= i < j < |s| :: s[i] != s[j])
  }

  lemma {:induction false} SortedInOrder(s: seq<string>)
    ensures Sorted(s) <==> forall i, j | 0 <= i < j < |s| :: NoLater(s[i], s[j])
  {
    hide Leq, NoLater;
    forall i, j | 0 <= i < j < |s| ensures Leq(s[i], s[j]) <==> NoLater(s[i], s[j]) {
      LeqExactlyWhenNoLater(s[i], s[j]);
    }
  }

  // Two sorted listings of one set are the same.
  lemma {:induction false} SortedListingUnique(a: seq<string>, b: seq<string>, keys: set<string>)
    requires Sorted(a) && Sorted(b) && Lists(a, keys) && Lists(b, keys)
    ensures a == b
    decreases |a|
  {
    assert b != [] ==> b[0] in b;
    if a != [] {
      assert a[0] in a && a[0] in b;
      assert b[0] in b && b[0] in a;
      LeqTotal(a[0], b[0]);
      var rest := keys - {a[0]};
      TailListing(a, keys);
      TailListing(b, keys);
      SortedListingUnique(a[1..], b[1..], rest);
      assert a == [a[0]] + a[1..] && b == [b[0]] + b[1..];
    }
  }

  lemma {:induction false} TailListing(s: seq<string>, keys: set<string>)
    requires s != [] && Lists(s, keys)
    ensures Lists(s[1..], keys - {s[0]})
  {
    forall k ensures k in s[1..] <==> k in keys - {s[0]} {
      if k in s[1..] {
        var i :| 0 <= i < |s[1..]| && s[1..][i] == k;
        assert s[i + 1] == k;
      }
    }
  }

  method SortedListing(keys: set<string>) returns (s: seq<string>)
    ensures Sorted(s) && Lists(s, keys)
  {
    s := [];
    var pending := keys;
    while pending != {}
      invariant pending <= keys && Sorted(s) && Lists(s, keys - pending)
      decreases |pending|
    {
      var k :| k in pending;
      var i := 0;
      while i < |s| && Leq(s[i], k)
        invariant i <= |s|
        invariant forall j | 0 <= j < i :: Leq(s[j], k)
      {
        i := i + 1;
      }
      InsertSorted(s, k, i, keys - pending);
      s := s[..i] + [k] + s[i..];
      pending := pending - {k};
      assert keys - pending == keys - (pending + {k}) + {k};
    }
    assert keys - pending == keys;
  }

  lemma {:induction false} InsertSorted(s: seq<string>, k: string, i: nat, keys: set<string>)
    requires Sorted(s) && Lists(s, keys) && k !in keys && i <= |s|
    requires forall j | 0 <= j < i :: Leq(s[j], k)
    requires i < |s| ==> !Leq(s[i], k)
    ensures Sorted(s[..i] + [k] + s[i..]) && Lists(s[..i] + [k] + s[i..], keys + {k})
  {
    forall j | i <= j < |s| ensures Leq(k, s[j]) {
      LeqTotal(s[i], k);
      if i < j { LeqTransitive(k, s[i], s[j]); }
    }
  }

  /** The sorted listing of a set of strings. */
  ghost function SortedKeys(keys: set<string>): (s: seq<string>)
    ensures Sorted(s) && Lists(s, keys)
  {
    SortedListingExists(keys);
    var s :| Sorted(s) && Lists(s, keys);
    s
  }

  lemma {:induction false} SortedListingExists(keys: set<string>)
    ensures exists s :: Sorted(s) && Lists(s, keys)
  {
    if keys == {} {
      assert Sorted([]) && Lists([], keys);
    } else {
      var k :| k in keys;
      SortedListingExists(keys - {k});
      var s :| Sorted(s) && Lists(s, keys - {k});
      var i := InsertionPoint(s, k);
      InsertSorted(s, k, i, keys - {k});
      assert keys - {k} + {k} == keys;
    }
  }

  function InsertionPoint(s: seq<string>, k: string): (i: nat)
    ensures i <= |s|
    ensures forall j | 0 <= j < i :: Leq(s[j], k)
    ensures i < |s| ==> !Leq(s[i], k)
  {
    if s == [] || !Leq(s[0], k) then 0 else 1 + InsertionPoint(s[1..], k)
  }
}
