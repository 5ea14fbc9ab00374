/**
 Which pods count, and what the scaler gets to know of them: the running and the pending pods are listed by two
 calls, and the cluster changes in between.
 */
module Listing {
  import opened Spec
  import opened Capabilities
  import opened Index
  import opened Requests
  import opened Tally
  import Bags

  /** The pods the scaler counts: pending or running agents that are not on their way out. */
  predicate Counted(pod: Pod) {
    && (pod.phase == Running || pod.phase == Pending)
    && CAPABILITIES in pod.annotations && TERMINATING !in pod.annotations && !pod.deleting
  }

  /** The counted pods that match the template, by printed capabilities. */
  ghost function PodBag(pods: seq<Pod>, input: Caps): multiset<string> {
    Sum(pods, KeyFor(input))
  }

  ghost function KeyFor(input: Caps): Pod -> multiset<string> {
    pod => KeyOf(pod, input)
  }

  ghost function KeyOf(pod: Pod, input: Caps): multiset<string> {
    if Counted(pod) && Matches(CapabilitiesOf(pod), input) then multiset{Print(CapabilitiesOf(pod))} else multiset{}
  }

  lemma {:induction false} BagOfListedPods(listed: seq<Pod>, input: Caps)
    requires forall p | p in listed :: Counted(p)
    ensures Bags.Bag(TagPods(listed), input) == PodBag(listed, input)
  {
    if listed != [] {
      var n := |listed| - 1;
      BagOfListedPods(listed[..n], input);
      assert TagPods(listed)[..n] == TagPods(listed[..n]);
      assert listed[n] in listed;
    }
  }

  ghost function InPhase(phase: Phase): Pod -> bool {
    (pod: Pod) => pod.phase == phase && CAPABILITIES in pod.annotations
  }

  ghost function Staying(): Pod -> bool {
    (pod: Pod) => TERMINATING !in pod.annotations && !pod.deleting
  }

  // The pods of one phase that carry the capabilities annotation.
  method GetPodsWithPhase(pods: seq<Pod>, phase: Phase) returns (found: seq<Pod>)
    ensures found == Keep(pods, InPhase(phase))
  {
    found := [];
    for i := 0 to |pods|
      invariant found == Keep(pods[..i], InPhase(phase))
    {
      assert pods[..i + 1] == pods[..i] + [pods[i]];
      KeepAppend(pods[..i], pods[i], InPhase(phase));
      if pods[i].phase == phase && CAPABILITIES in pods[i].annotations {
        found := found + [pods[i]];
      }
    }
    assert pods[..|pods|] == pods;
  }

  method GetFilteredRunningPods(pods: seq<Pod>) returns (found: seq<Pod>)
    ensures found == Keep(pods, Staying())
  {
    found := [];
    for i := 0 to |pods|
      invariant found == Keep(pods[..i], Staying())
    {
      assert pods[..i + 1] == pods[..i] + [pods[i]];
      KeepAppend(pods[..i], pods[i], Staying());
      if TERMINATING !in pods[i].annotations {
        if !pods[i].deleting {
          found := found + [pods[i]];
        }
      }
    }
    assert pods[..|pods|] == pods;
  }

  predicate Named(pods: seq<Pod>) {
    forall i, j | 0 <= i < j < |pods| :: pods[i].name != pods[j].name
  }

  // The same pod, counted both times for the same demand.
  predicate Twins(a: Pod, b: Pod) {
    && a.name == b.name && Counted(a) && Counted(b)
    && a.annotations[CAPABILITIES] == b.annotations[CAPABILITIES]
  }

  predicate HasTwin(seen: seq<Pod>, pod: Pod) {
    exists j | 0 <= j < |seen| :: Twins(seen[j], pod)
  }

  /** Every pod that counts is among those that were seen. */
  predicate Reflects(pods: seq<Pod>, seen: seq<Pod>) {
    forall i | 0 <= i < |pods| && Counted(pods[i]) :: HasTwin(seen, pods[i])
  }

  predicate HasName(pods: seq<Pod>, name: string) {
    exists j | 0 <= j < |pods| :: pods[j].name == name
  }

  /**
   What may happen to the pods of a cluster without the operator: they start, end and vanish, but none begins
   to count, changes its capabilities, or is pending again after it was running.
   */
  predicate Evolves(before: seq<Pod>, after: seq<Pod>) {
    && Named(after) && Reflects(after, before)
    && (forall i | 0 <= i < |after| :: HasName(before, after[i].name))
    && (forall i, j | 0 <= i < |before| && 0 <= j < |after| ::
          before[i].name == after[j].name && Counted(after[j]) && after[j].phase == Pending ==> before[i].phase == Pending)
  }

  lemma {:induction false} ReflectsSelf(pods: seq<Pod>)
    ensures Reflects(pods, pods)
  {
    forall i | 0 <= i < |pods| && Counted(pods[i]) ensures HasTwin(pods, pods[i]) {
      assert Twins(pods[i], pods[i]);
    }
  }

  lemma {:induction false} ReflectsTwice(a: seq<Pod>, b: seq<Pod>, c: seq<Pod>)
    requires Reflects(a, b) && Reflects(b, c)
    ensures Reflects(a, c)
  {
    forall i | 0 <= i < |a| && Counted(a[i]) ensures HasTwin(c, a[i]) {
      assert HasTwin(b, a[i]);
      var j :| 0 <= j < |b| && Twins(b[j], a[i]);
      assert HasTwin(c, b[j]);
      var k :| 0 <= k < |c| && Twins(c[k], b[j]);
      assert Twins(c[k], a[i]);
    }
  }

  lemma {:induction false} TwinsCountAlike(a: Pod, b: Pod, input: Caps)
    requires Twins(a, b)
    ensures KeyOf(a, input) == KeyOf(b, input)
  {
    hide Matches, Print, Parse;
  }

  lemma {:induction false} Without(seen: seq<Pod>, j: nat, key: Pod -> multiset<string>)
    requires j < |seen|
    ensures Sum(seen, key) == Sum(seen[..j] + seen[j + 1..], key) + key(seen[j])
  {
    hide Sum;
    SumConcat(seen[..j], seen[j + 1..], key);
    assert seen == seen[..j] + [seen[j]] + seen[j + 1..];
    SumAppend(seen[..j], seen[j], key);
    SumConcat(seen[..j] + [seen[j]], seen[j + 1..], key);
  }

  /** What is reflected counts for no more than what was seen. */
  lemma {:induction false} ReflectedCountsNoMore(pods: seq<Pod>, seen: seq<Pod>, input: Caps)
    requires Named(pods) && Reflects(pods, seen)
    ensures PodBag(pods, input) <= PodBag(seen, input)
    decreases |pods|
  {
    hide Matches, Print, Counted, Twins;
    if pods != [] {
      var n := |pods| - 1;
      var rest, last := pods[..n], pods[n];
      if Counted(last) {
        assert HasTwin(seen, last);
        var j :| 0 <= j < |seen| && Twins(seen[j], last);
        OthersReflected(pods, seen, j);
        ReflectedCountsNoMore(rest, seen[..j] + seen[j + 1..], input);
        Without(seen, j, KeyFor(input));
        TwinsCountAlike(seen[j], last, input);
      } else {
        forall i | 0 <= i < n && Counted(rest[i]) ensures HasTwin(seen, rest[i]) {
          assert rest[i] == pods[i];
        }
        ReflectedCountsNoMore(rest, seen, input);
        UncountedHasNoKey(last, input);
      }
    }
  }

  lemma {:induction false} UncountedHasNoKey(pod: Pod, input: Caps)
    requires !Counted(pod)
    ensures KeyOf(pod, input) == multiset{}
  {
  }

  // Without the twin of the last pod, the others are still reflected.
  lemma {:induction false} OthersReflected(pods: seq<Pod>, seen: seq<Pod>, j: nat)
    requires Named(pods) && Reflects(pods, seen) && pods != [] && j < |seen| && Twins(seen[j], pods[|pods| - 1])
    ensures Named(pods[..|pods| - 1]) && Reflects(pods[..|pods| - 1], seen[..j] + seen[j + 1..])
  {
    hide Counted;
    var n := |pods| - 1;
    var others := seen[..j] + seen[j + 1..];
    forall i | 0 <= i < n && Counted(pods[i]) ensures HasTwin(others, pods[i]) {
      assert HasTwin(seen, pods[i]);
      var k :| 0 <= k < |seen| && Twins(seen[k], pods[i]);
      assert k != j;
      assert others[if k < j then k else k - 1] == seen[k];
    }
  }

  /** The list the scaler works on: the running pods of one moment and the pending pods of a later one. */
  ghost function Listed(first: seq<Pod>, second: seq<Pod>): seq<Pod> {
    Keep(Keep(first, InPhase(Running)) + Keep(second, InPhase(Pending)), Staying())
  }

  /** No pod that counts began to run between the two lists. */
  ghost predicate Steady(first: seq<Pod>, second: seq<Pod>) {
    forall i, j | 0 <= i < |first| && 0 <= j < |second| ::
      first[i].name == second[j].name && Counted(second[j]) && second[j].phase == Running ==> first[i].phase != Pending
  }

  lemma {:induction false} ListedMembers(first: seq<Pod>, second: seq<Pod>)
    ensures forall p :: p in Listed(first, second) <==>
                        Counted(p) && ((p in first && p.phase == Running) || (p in second && p.phase == Pending))
  {
    var running, pending := Keep(first, InPhase(Running)), Keep(second, InPhase(Pending));
    KeepMembers(first, InPhase(Running));
    KeepMembers(second, InPhase(Pending));
    KeepMembers(running + pending, Staying());
  }

  lemma {:induction false} KeepNamed(pods: seq<Pod>, keep: Pod -> bool)
    requires Named(pods)
    ensures Named(Keep(pods, keep))
  {
    if pods != [] {
      var n := |pods| - 1;
      KeepNamed(pods[..n], keep);
      KeepMembers(pods[..n], keep);
      var kept := Keep(pods[..n], keep);
      forall i | 0 <= i < |kept| ensures kept[i].name != pods[n].name {
        assert kept[i] in kept;
        var j :| 0 <= j < n && pods[..n][j] == kept[i];
      }
    }
  }

  lemma {:induction false} ListedIsNamed(first: seq<Pod>, second: seq<Pod>)
    requires Named(first) && Evolves(first, second)
    ensures Named(Listed(first, second))
  {
    var running, pending := Keep(first, InPhase(Running)), Keep(second, InPhase(Pending));
    KeepConcat(running, pending, Staying());
    KeepNamed(first, InPhase(Running));
    KeepNamed(running, Staying());
    KeepNamed(second, InPhase(Pending));
    KeepNamed(pending, Staying());
    var a, b := Keep(running, Staying()), Keep(pending, Staying());
    forall i, j | 0 <= i < |a| && 0 <= j < |b| ensures a[i].name != b[j].name {
      KeptInPhase(first, Running, a[i]);
      KeptInPhase(second, Pending, b[j]);
    }
  }

  lemma {:induction false} KeptInPhase(pods: seq<Pod>, phase: Phase, pod: Pod)
    requires pod in Keep(Keep(pods, InPhase(phase)), Staying()) && (phase == Running || phase == Pending)
    ensures exists i | 0 <= i < |pods| :: pods[i] == pod
    ensures pod.phase == phase && Counted(pod)
  {
    KeepMembers(pods, InPhase(phase));
    KeepMembers(Keep(pods, InPhase(phase)), Staying());
  }

  lemma {:induction false} TwinExists(seen: seq<Pod>, pod: Pod, twin: Pod)
    requires twin in seen && Twins(twin, pod)
    ensures HasTwin(seen, pod)
  {
  }

  /**
   What the list is worth: it is part of what counted at the first moment, and it misses nothing of what counts
   at the second exactly when no pod that counts began to run in between.
   */
  lemma {:induction false} ListedExactlyWhenSteady(first: seq<Pod>, second: seq<Pod>)
    requires Named(first) && Evolves(first, second)
    ensures Named(Listed(first, second)) && Reflects(Listed(first, second), first)
    ensures Reflects(second, Listed(first, second)) <==> Steady(first, second)
  {
    var listed := Listed(first, second);
    ListedIsNamed(first, second);
    ListedMembers(first, second);
    hide Listed;
    forall i | 0 <= i < |listed| && Counted(listed[i]) ensures HasTwin(first, listed[i]) {
      assert listed[i] in listed;
      if listed[i] in first {
        TwinExists(first, listed[i], listed[i]);
      } else {
        var j :| 0 <= j < |second| && second[j] == listed[i];
        assert HasTwin(first, second[j]);
      }
    }
    if Steady(first, second) {
      forall j | 0 <= j < |second| && Counted(second[j]) ensures HasTwin(listed, second[j]) {
        SteadyIsListed(first, second, listed, j);
      }
    } else {
      var i, j :| 0 <= i < |first| && 0 <= j < |second|
                  && first[i].name == second[j].name && Counted(second[j]) && second[j].phase == Running && first[i].phase == Pending;
      MissedIsUnlisted(first, second, listed, i, j);
    }
  }

  lemma {:induction false} SteadyIsListed(first: seq<Pod>, second: seq<Pod>, listed: seq<Pod>, j: nat)
    requires Evolves(first, second) && Steady(first, second) && j < |second| && Counted(second[j])
    requires forall p :: p in listed <==>
                         Counted(p) && ((p in first && p.phase == Running) || (p in second && p.phase == Pending))
    ensures HasTwin(listed, second[j])
  {
    if second[j].phase == Pending {
      TwinExists(listed, second[j], second[j]);
    } else {
      assert HasTwin(first, second[j]);
      var i :| 0 <= i < |first| && Twins(first[i], second[j]);
      TwinExists(listed, second[j], first[i]);
    }
  }

  lemma {:induction false} MissedIsUnlisted(first: seq<Pod>, second: seq<Pod>, listed: seq<Pod>, i: nat, j: nat)
    requires Named(first) && Named(second) && i < |first| && j < |second|
    requires first[i].name == second[j].name && Counted(second[j]) && second[j].phase == Running && first[i].phase == Pending
    requires forall p :: p in listed <==>
                         Counted(p) && ((p in first && p.phase == Running) || (p in second && p.phase == Pending))
    ensures !Reflects(second, listed)
  {
    if HasTwin(listed, second[j]) {
      assert false;
    }
  }

  // A pod that begins to run between the two lists is in neither of them.
  lemma {:induction false} StartingPodIsUnlisted(pod: Pod)
    requires Counted(pod) && pod.phase == Pending
    ensures var running := pod.(phase := Running);
            Evolves([pod], [running]) && Listed([pod], [running]) == []
  {
    var running := pod.(phase := Running);
    var first, second := [pod], [running];
    assert Twins(first[0], second[0]) && HasTwin(first, second[0]);
    assert first[0].name == second[0].name && HasName(first, second[0].name);
    ListedMembers(first, second);
    hide Listed;
    var listed := Listed(first, second);
    if listed != [] {
      FirstIsMember(listed);
    }
  }

  lemma {:induction false} FirstIsMember<T>(s: seq<T>)
    requires s != []
    ensures s[0] in s
  {
  }
}
