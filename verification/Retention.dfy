/** Keeping only the most recently started of the pods that have terminated. */
module Retention {
  import opened Spec
  import opened Lease
  import opened Numbers
  import opened Text

  type Cluster = map<string, Pod>

  predicate IsOld(pod: Pod) {
    Terminated(pod.phase) && CAPABILITIES in pod.annotations
  }

  function OldPods(pods: Cluster): set<string> {
    set p | p in pods && IsOld(pods[p])
  }

  // An agent pod that has ended, successfully or not.
  predicate HasEnded(pod: Pod) {
    "AzurePipelinesCapabilities" in pod.annotations && (pod.phase == Succeeded || pod.phase == Failed)
  }

  lemma {:induction false} OldExactlyWhenEnded(pods: Cluster, p: string)
    requires p in pods
    ensures p in OldPods(pods) <==> HasEnded(pods[p])
  {
  }

  // What the bound on the old pods says of single pods.
  lemma {:induction false} OthersStay(before: Cluster, after: Cluster)
    requires after == before - (OldPods(before) - OldPods(after)) && OldestFirst(before, OldPods(after))
    ensures forall a, b | a in before && a !in after && b in after && HasEnded(after[b]) ::
              before[a].startTime <= after[b].startTime
    ensures forall p | p in before && !HasEnded(before[p]) :: p in after && after[p] == before[p]
    ensures |OldPods(after)| == 0 ==> forall p | p in after :: !HasEnded(after[p])
  {
    forall p | p in before && !HasEnded(before[p]) ensures p in after && after[p] == before[p] {
      OldExactlyWhenEnded(before, p);
    }
    forall a, b | a in before && a !in after && b in after && HasEnded(after[b])
      ensures before[a].startTime <= after[b].startTime
    {
      OldExactlyWhenEnded(after, b);
    }
    forall p | p in after && |OldPods(after)| == 0 ensures !HasEnded(after[p]) {
      OldExactlyWhenEnded(after, p);
      assert p !in OldPods(after);
    }
  }

  /** Of the old pods, none that is gone was started after one that is kept. */
  ghost predicate OldestFirst(before: Cluster, kept: set<string>) {
    kept <= OldPods(before) &&
    forall a, b | a in OldPods(before) - kept && b in kept :: before[a].startTime <= before[b].startTime
  }

  /** What is left of the old pods when `keep` of them may stay. */
  ghost predicate Retained(before: Cluster, keep: nat, kept: set<string>) {
    OldestFirst(before, kept) && |kept| == Min(|OldPods(before)|, keep)
  }

  ghost predicate ByStart(pods: Cluster, s: seq<string>) {
    && (forall p | p in s :: p in pods)
    && (forall i, j | 0 <= i < j < |s| :: pods[s[i]].startTime <= pods[s[j]].startTime)
  }

  ghost predicate Before(pods: Cluster, s: seq<string>, pending: set<string>) {
    forall p, q | p in s && q in pending :: p in pods && q in pods && pods[p].startTime <= pods[q].startTime
  }

  lemma {:induction false} StartEmpty(pods: Cluster, all: set<string>)
    ensures Lists([], all - all) && ByStart(pods, []) && Before(pods, [], all)
  {
  }

  lemma {:induction false} AppendEarliest(pods: Cluster, s: seq<string>, all: set<string>, pending: set<string>, p: string)
    requires pending <= all <= pods.Keys && Lists(s, all - pending) && ByStart(pods, s) && Before(pods, s, pending)
    requires p in pending && forall q | q in pending :: pods[p].startTime <= pods[q].startTime
    ensures Lists(s + [p], all - (pending - {p})) && ByStart(pods, s + [p]) && Before(pods, s + [p], pending - {p})
  {
  }

  lemma {:induction false} EarliestExists(pods: Cluster, names: set<string>)
    requires names != {} && names <= pods.Keys
    ensures exists p | p in names :: forall q | q in names :: pods[p].startTime <= pods[q].startTime
  {
    var p :| p in names;
    var rest := names - {p};
    assert names == rest + {p};
    if rest != {} {
      EarliestExists(pods, rest);
      var r :| r in rest && forall q | q in rest :: pods[r].startTime <= pods[q].startTime;
      var first := if pods[p].startTime <= pods[r].startTime then p else r;
      assert forall q | q in names :: q == p || q in rest;
      assert first in names;
    }
  }

  class PodRetention {
    var pods: Cluster
    // How many deletions have failed so far.
    ghost var failures: nat

    constructor (pods: Cluster)
      ensures this.pods == pods
    {
      this.pods, failures := pods, 0;
    }

    // The names of the old pods by start time, ties in any order.
    method SortedByStart() returns (s: seq<string>)
      ensures Lists(s, OldPods(pods)) && ByStart(pods, s)
    {
      hide Lists, ByStart, Before;
      s := [];
      StartEmpty(pods, OldPods(pods));
      var pending := OldPods(pods);
      while pending != {}
        invariant pending <= OldPods(pods) && Lists(s, OldPods(pods) - pending) && ByStart(pods, s)
        invariant Before(pods, s, pending)
        decreases |pending|
      {
        EarliestExists(pods, pending);
        var p :| p in pending && forall q | q in pending :: pods[p].startTime <= pods[q].startTime;
        AppendEarliest(pods, s, OldPods(pods), pending, p);
        s := s + [p];
        pending := pending - {p};
      }
      assert OldPods(pods) - {} == OldPods(pods);
    }

    method Delete(p: string) returns (ok: bool)
      modifies this
      ensures pods == old(pods) - {p} || (!ok && pods == old(pods))
      ensures failures == old(failures) + if ok then 0 else 1
    {
      var reply: Reply := *;
      if reply != Rejected {
        pods := pods - {p};
      }
      ok := reply == Done;
      failures := failures + if ok then 0 else 1;
    }

    /**
     Exactly min(number of old pods, keep) old pods stay when no call fails, and never fewer; always the
     oldest go first, whatever the order of ties, and no other pod is touched.
     */
    method DeleteTerminatedAgentPods(keep: nat) returns (ok: bool)
      modifies this
      ensures pods == old(pods) - (OldPods(old(pods)) - OldPods(pods))
      ensures OldestFirst(old(pods), OldPods(pods))
      ensures |OldPods(pods)| >= Min(|OldPods(old(pods))|, keep)
      ensures ok ==> Retained(old(pods), keep, OldPods(pods))
      ensures forall p | p in old(pods) && !HasEnded(old(pods)[p]) :: p in pods && pods[p] == old(pods)[p]
      ensures failures == old(failures) && keep == 0 ==> forall p | p in pods :: !HasEnded(pods[p])
      ensures forall a, b | a in old(pods) && a !in pods && b in pods && HasEnded(pods[b]) ::
                old(pods)[a].startTime <= pods[b].startTime
      ensures failures >= old(failures) && (ok <==> failures == old(failures))
    {
      hide OldPods, OldestFirst, HasEnded;
      ok := true;
      var terminated := SortedByStart();
      ListsCount(terminated, OldPods(pods));
      NoneGone(pods, terminated);
      if |terminated| > keep {
        for i := 0 to |terminated| - keep
          invariant ok && Gone(old(pods), pods, terminated, i) && failures == old(failures)
        {
          ok := Delete(terminated[i]);
          OneGone(old(pods), pods, terminated, i);
          if !ok {
            ghost var n := if pods == old(pods) - Firsts(terminated, i) then i else i + 1;
            GoneOldestFirst(old(pods), pods, terminated, n);
            OthersStay(old(pods), pods);
            return;
          }
        }
        GoneOldestFirst(old(pods), pods, terminated, |terminated| - keep);
      } else {
        GoneOldestFirst(old(pods), pods, terminated, 0);
      }
      OthersStay(old(pods), pods);
    }
  }

  function Firsts(s: seq<string>, n: nat): set<string>
    requires n <= |s|
  {
    set i | 0 <= i < n :: s[i]
  }

  ghost predicate Gone(before: Cluster, after: Cluster, s: seq<string>, n: nat) {
    n <= |s| && after == before - Firsts(s, n)
  }

  lemma {:induction false} NoneGone(before: Cluster, s: seq<string>)
    ensures Gone(before, before, s, 0)
  {
    assert Firsts(s, 0) == {};
  }

  lemma {:induction false} OneGone(before: Cluster, after: Cluster, s: seq<string>, i: nat)
    requires i < |s|
    ensures after == before - Firsts(s, i) - {s[i]} ==> Gone(before, after, s, i + 1)
    ensures after == before - Firsts(s, i) ==> Gone(before, after, s, i)
  {
    assert Firsts(s, i + 1) == Firsts(s, i) + {s[i]};
  }

  lemma {:induction false} ListsCount(s: seq<string>, names: set<string>)
    requires Lists(s, names)
    ensures |s| == |names|
  {
    if s == [] {
      assert names == {};
    } else {
      assert s == [s[0]] + s[1..];
      assert Lists(s[1..], names - {s[0]}) by {
        forall p ensures p in s[1..] <==> p in names - {s[0]} {
          if p in s[1..] {
            var i :| 0 <= i < |s[1..]| && s[1..][i] == p;
            assert s[i + 1] == p;
          }
        }
      }
      ListsCount(s[1..], names - {s[0]});
    }
  }

  lemma {:induction false} GoneOldestFirst(before: Cluster, after: Cluster, s: seq<string>, n: nat)
    requires Lists(s, OldPods(before)) && ByStart(before, s) && Gone(before, after, s, n)
    ensures OldestFirst(before, OldPods(after))
    ensures |OldPods(after)| == |s| - n
    ensures after == before - (OldPods(before) - OldPods(after))
  {
    var rest := s[n..];
    forall p ensures p in OldPods(after) <==> p in rest {
      if p in OldPods(after) {
        assert p in OldPods(before) && p in s;
        var i :| 0 <= i < |s| && s[i] == p;
        assert i >= n && rest[i - n] == p;
      }
      if p in rest {
        var i :| 0 <= i < |rest| && rest[i] == p;
        assert s[n + i] == p && p in s;
      }
    }
    assert Lists(rest, OldPods(after));
    ListsCount(rest, OldPods(after));
    forall a, b | a in OldPods(before) - OldPods(after) && b in OldPods(after)
      ensures before[a].startTime <= before[b].startTime
    {
      var j :| 0 <= j < |rest| && rest[j] == b;
      var i :| 0 <= i < |s| && s[i] == a;
      assert s[n + j] == b;
    }
    assert OldPods(before) - OldPods(after) == Firsts(s, n);
  }

  /** Without ties, every order of deletion leaves the same pods. */
  lemma {:induction false} RetainedIsUnique(before: Cluster, keep: nat, a: set<string>, b: set<string>)
    requires Retained(before, keep, a) && Retained(before, keep, b)
    requires forall p, q | p in OldPods(before) && q in OldPods(before) && p != q :: before[p].startTime != before[q].startTime
    ensures a == b
  {
    if a <= b {
      Subset(a, b);
    } else if b <= a {
      Subset(b, a);
    }
  }

  lemma {:induction false} Subset(a: set<string>, b: set<string>)
    requires a <= b
    ensures |a| <= |b| && (|a| == |b| ==> a == b)
  {
    assert b == a + (b - a);
  }

  /** Once retained, a further pass has nothing to delete. */
  lemma {:induction false} RetainedIsStable(before: Cluster, middle: Cluster, after: Cluster, keep: nat)
    requires Retained(before, keep, OldPods(middle)) && Retained(middle, keep, OldPods(after))
    requires after == middle - (OldPods(middle) - OldPods(after))
    ensures after == middle
  {
    Subset(OldPods(after), OldPods(middle));
    assert OldPods(middle) - OldPods(after) == {};
  }
}
