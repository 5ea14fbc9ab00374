/**
 Ending the pods whose agent has finished: the images of the containers that still run are replaced by ones
 that do not exist. The statuses of a pod may list its containers in another order than its spec.
 */
module Sidecars {
  import opened Outcomes
  import opened Spec
  import opened Lease
  import Listing

  const NON_EXISTENT: string := "does-not-exist-for-sure"

  ghost function StatusIndex(pod: Pod, name: string): (j: nat)
    ensures j <= |pod.statuses|
    ensures j < |pod.statuses| ==> pod.statuses[j].name == name
    ensures forall k | 0 <= k < j :: pod.statuses[k].name != name
  {
    StatusIndexFrom(pod.statuses, name)
  }

  ghost function StatusIndexFrom(statuses: seq<Status>, name: string): (j: nat)
    ensures j <= |statuses|
    ensures j < |statuses| ==> statuses[j].name == name
    ensures forall k | 0 <= k < j :: statuses[k].name != name
  {
    if statuses == [] || statuses[0].name == name then 0 else 1 + StatusIndexFrom(statuses[1..], name)
  }

  ghost function SpecIndex(containers: seq<Container>, name: string): (i: nat)
    ensures i <= |containers|
    ensures i < |containers| ==> containers[i].name == name
    ensures forall k | 0 <= k < i :: containers[k].name != name
  {
    if containers == [] || containers[0].name == name then 0 else 1 + SpecIndex(containers[1..], name)
  }

  method GetContainerStatusIndex(pod: Pod, i: nat) returns (found: Option<nat>)
    requires i < |pod.containers|
    ensures var j := StatusIndex(pod, pod.containers[i].name);
            found == if j < |pod.statuses| then Some(j) else None
  {
    for j := 0 to |pod.statuses|
      invariant forall k | 0 <= k < j :: pod.statuses[k].name != pod.containers[i].name
    {
      if pod.statuses[j].name == pod.containers[i].name {
        return Some(j);
      }
    }
    return None;
  }

  method GetContainerSpecIndex(containers: seq<Container>, status: Status) returns (found: Option<nat>)
    ensures var i := SpecIndex(containers, status.name);
            found == if i < |containers| then Some(i) else None
  {
    for i := 0 to |containers|
      invariant forall k | 0 <= k < i :: containers[k].name != status.name
    {
      if containers[i].name == status.name {
        return Some(i);
      }
    }
    return None;
  }

  /** Every container has exactly one status, and every status belongs to a container. */
  ghost predicate Aligned(pod: Pod) {
    && (forall i, j | 0 <= i < j < |pod.containers| :: pod.containers[i].name != pod.containers[j].name)
    && (forall i, j | 0 <= i < j < |pod.statuses| :: pod.statuses[i].name != pod.statuses[j].name)
    && (forall i | 0 <= i < |pod.containers| :: HasStatus(pod, i))
    && (forall j | 0 <= j < |pod.statuses| :: HasContainer(pod, j))
  }

  ghost predicate HasStatus(pod: Pod, i: nat)
    requires i < |pod.containers|
  {
    exists j | 0 <= j < |pod.statuses| :: pod.statuses[j].name == pod.containers[i].name
  }

  ghost predicate HasContainer(pod: Pod, j: nat)
    requires j < |pod.statuses|
  {
    exists i | 0 <= i < |pod.containers| :: pod.containers[i].name == pod.statuses[j].name
  }

  /** The two index look-ups are inverse to each other. */
  lemma {:induction false} IndicesAreInverse(pod: Pod)
    requires Aligned(pod)
    ensures forall i | 0 <= i < |pod.containers| ::
              && StatusIndex(pod, pod.containers[i].name) < |pod.statuses|
              && SpecIndex(pod.containers, pod.statuses[StatusIndex(pod, pod.containers[i].name)].name) == i
    ensures forall j | 0 <= j < |pod.statuses| ::
              && SpecIndex(pod.containers, pod.statuses[j].name) < |pod.containers|
              && StatusIndex(pod, pod.containers[SpecIndex(pod.containers, pod.statuses[j].name)].name) == j
  {
    forall i | 0 <= i < |pod.containers| ensures StatusIndex(pod, pod.containers[i].name) < |pod.statuses| {
      assert HasStatus(pod, i);
    }
    forall j | 0 <= j < |pod.statuses| ensures SpecIndex(pod.containers, pod.statuses[j].name) < |pod.containers| {
      assert HasContainer(pod, j);
    }
  }

  ghost predicate InState(pod: Pod, i: nat, state: ContainerState)
    requires i < |pod.containers|
  {
    exists j | 0 <= j < |pod.statuses| :: pod.statuses[j].name == pod.containers[i].name && pod.statuses[j].state == state
  }

  /** The agent has ended, other containers still run, and nothing has been done about it yet. */
  ghost predicate MustStop(pod: Pod) {
    && pod.phase == Running && CAPABILITIES in pod.annotations && TERMINATING !in pod.annotations
    && |pod.containers| > 1 && InState(pod, 0, Ended)
    && exists i | 0 < i < |pod.containers| :: InState(pod, i, Active)
  }

  /** Exactly the running containers other than the agent's got an image that does not exist. */
  ghost predicate Stopped(pod: Pod, containers: seq<Container>) {
    && |containers| == |pod.containers|
    && forall i | 0 <= i < |containers| ::
         if i > 0 && InState(pod, i, Active) then
           exists j | 0 <= j < |pod.statuses| ::
             && pod.statuses[j].name == pod.containers[i].name
             && containers[i] == pod.containers[i].(image := pod.statuses[j].image + NON_EXISTENT)
         else containers[i] == pod.containers[i]
  }

  // The statuses with these indices have been dealt with.
  ghost predicate StoppedSome(pod: Pod, containers: seq<Container>, done: seq<nat>) {
    && |containers| == |pod.containers|
    && (forall i | 0 <= i < |containers| ::
          var j := StatusIndex(pod, pod.containers[i].name);
          containers[i] == if j < |pod.statuses| && j in done
                           then pod.containers[i].(image := pod.statuses[j].image + NON_EXISTENT)
                           else pod.containers[i])
  }

  ghost predicate RunningOthers(pod: Pod, agent: nat, n: nat, indices: seq<nat>)
    requires n <= |pod.statuses|
  {
    forall j :: j in indices <==> 0 <= j < n && j != agent && pod.statuses[j].state == Active
  }

  method RunningStatuses(pod: Pod, agent: nat) returns (indices: seq<nat>)
    ensures RunningOthers(pod, agent, |pod.statuses|, indices)
  {
    indices := [];
    for j := 0 to |pod.statuses|
      invariant RunningOthers(pod, agent, j, indices)
    {
      if j != agent && pod.statuses[j].state == Active {
        indices := indices + [j];
      }
    }
  }

  lemma {:induction false} StopOneMore(pod: Pod, containers: seq<Container>, done: seq<nat>, j: nat, i: nat)
    requires Aligned(pod) && StoppedSome(pod, containers, done) && j < |pod.statuses|
    requires i < |containers| && i == SpecIndex(pod.containers, pod.statuses[j].name)
    ensures StoppedSome(pod, containers[i := containers[i].(image := pod.statuses[j].image + NON_EXISTENT)], done + [j])
  {
    IndicesAreInverse(pod);
  }

  lemma {:induction false} SameNames(pod: Pod, containers: seq<Container>, name: string)
    requires |containers| == |pod.containers|
    requires forall i | 0 <= i < |containers| :: containers[i].name == pod.containers[i].name
    ensures SpecIndex(containers, name) == SpecIndex(pod.containers, name)
  {
  }

  // The containers with the images of the listed statuses replaced.
  method ReplaceImages(pod: Pod, indices: seq<nat>) returns (ok: bool, containers: seq<Container>)
    requires forall j | j in indices :: j < |pod.statuses|
    ensures Aligned(pod) ==> ok && StoppedSome(pod, containers, indices)
  {
    containers := pod.containers;
    for k := 0 to |indices|
      invariant |containers| == |pod.containers|
      invariant forall i | 0 <= i < |containers| :: containers[i].name == pod.containers[i].name
      invariant Aligned(pod) ==> StoppedSome(pod, containers, indices[..k])
    {
      var j := indices[k];
      assert j in indices;
      SameNames(pod, containers, pod.statuses[j].name);
      var found := GetContainerSpecIndex(containers, pod.statuses[j]);
      if found.None? {
        if Aligned(pod) {
          IndicesAreInverse(pod);
        }
        return false, containers;
      }
      if Aligned(pod) {
        StopOneMore(pod, containers, indices[..k], j, found.value);
      }
      assert indices[..k + 1] == indices[..k] + [j];
      containers := containers[found.value := containers[found.value].(image := pod.statuses[j].image + NON_EXISTENT)];
    }
    assert indices[..|indices|] == indices;
    ok := true;
  }

  lemma {:induction false} StateOfContainer(pod: Pod, i: nat, state: ContainerState)
    requires Aligned(pod) && i < |pod.containers|
    ensures var j := StatusIndex(pod, pod.containers[i].name);
            j < |pod.statuses| && (InState(pod, i, state) <==> pod.statuses[j].state == state)
  {
    assert HasStatus(pod, i);
  }

  // The status of another container is another one than the agent's.
  lemma {:induction false} OtherStatus(pod: Pod, i: nat)
    requires Aligned(pod) && 0 < i < |pod.containers|
    ensures StatusIndex(pod, pod.containers[i].name) != StatusIndex(pod, pod.containers[0].name)
  {
    IndicesAreInverse(pod);
  }

  lemma {:induction false} ContainerOfStatus(pod: Pod, j: nat)
    requires Aligned(pod) && |pod.containers| > 0 && j < |pod.statuses|
    requires j != StatusIndex(pod, pod.containers[0].name)
    ensures var i := SpecIndex(pod.containers, pod.statuses[j].name);
            0 < i < |pod.containers| && StatusIndex(pod, pod.containers[i].name) == j
  {
    IndicesAreInverse(pod);
  }

  lemma {:induction false} StoppedAll(pod: Pod, agent: nat, indices: seq<nat>)
    requires Aligned(pod) && |pod.containers| > 1 && agent == StatusIndex(pod, pod.containers[0].name)
    requires RunningOthers(pod, agent, |pod.statuses|, indices)
    ensures agent < |pod.statuses| && (InState(pod, 0, Ended) <==> pod.statuses[agent].state == Ended)
    ensures indices != [] <==> exists i | 0 < i < |pod.containers| :: InState(pod, i, Active)
    ensures forall containers :: StoppedSome(pod, containers, indices) ==> Stopped(pod, containers)
  {
    hide Aligned, StatusIndex, SpecIndex, InState;
    StateOfContainer(pod, 0, Ended);
    forall i | 0 < i < |pod.containers|
      ensures InState(pod, i, Active) <==> StatusIndex(pod, pod.containers[i].name) in indices
      ensures StatusIndex(pod, pod.containers[i].name) < |pod.statuses|
    {
      StateOfContainer(pod, i, Active);
      OtherStatus(pod, i);
    }
    if indices != [] {
      assert indices[0] in indices;
      ContainerOfStatus(pod, indices[0]);
      assert InState(pod, SpecIndex(pod.containers, pod.statuses[indices[0]].name), Active);
    }
    assert agent !in indices;
  }

  // How far the two updates of a pod that has to be stopped got.
  ghost predicate ImagesReplaced(before: Pod, after: Pod) {
    MustStop(before) && Stopped(before, after.containers) && after == before.(containers := after.containers)
  }

  ghost predicate Settled(before: Pod, after: Pod) {
    if MustStop(before) then
      && Stopped(before, after.containers)
      && after == before.(containers := after.containers, annotations := before.annotations[TERMINATING := "1"])
    else after == before
  }

  ghost predicate Touched(before: Pod, after: Pod) {
    after == before || ImagesReplaced(before, after) || Settled(before, after)
  }

  class AgentPods {
    var pods: seq<Pod>
    // How many updates have failed so far.
    ghost var failures: nat

    constructor (pods: seq<Pod>)
      ensures this.pods == pods
    {
      this.pods, failures := pods, 0;
    }

    method Update(i: nat, pod: Pod) returns (ok: bool)
      requires i < |pods|
      modifies this
      ensures pods == old(pods)[i := pod] || (!ok && pods == old(pods))
      ensures failures == old(failures) + if ok then 0 else 1
    {
      var reply: Reply := *;
      if reply != Rejected {
        pods := pods[i := pod];
      }
      ok := reply == Done;
      failures := failures + if ok then 0 else 1;
    }

    method TerminateFinishedPod(i: nat) returns (ok: bool)
      requires i < |pods|
      modifies this
      ensures |pods| == |old(pods)| && pods == old(pods)[i := pods[i]]
      ensures Regular(old(pods)[i]) ==> if ok then Settled(old(pods)[i], pods[i]) else Touched(old(pods)[i], pods[i])
      ensures AgentHasNoStatus(old(pods)[i]) ==> !ok && pods == old(pods)
      ensures failures >= old(failures) && (Regular(old(pods)[i]) ==> (ok <==> failures == old(failures)))
    {
      hide Stopped, StoppedSome, RunningOthers, InState, Aligned;
      var pod := pods[i];
      ghost var regular := Aligned(pod);
      ok := true;
      if pod.phase == Running && CAPABILITIES in pod.annotations && |pod.containers| > 1 {
        var agent := GetContainerStatusIndex(pod, 0);
        if regular {
          StatusOfAgent(pod);
        }
        if agent.None? {
          return false;
        }
        if pod.statuses[agent.value].state == Ended {
          var indices := RunningStatuses(pod, agent.value);
          if regular {
            StoppedAll(pod, agent.value, indices);
          }
          if |indices| > 0 && TERMINATING !in pod.annotations {
            IndicesInRange(pod, agent.value, indices);
            var found, containers := ReplaceImages(pod, indices);
            if !found {
              return false;
            }
            pod := pod.(containers := containers);
            ok := Update(i, pod);
            if ok {
              pod := pod.(annotations := pod.annotations[TERMINATING := "1"]);
              ok := Update(i, pod);
            }
          }
        } else if regular {
          AgentStillRuns(pod, agent.value);
        }
      }
    }

    /**
     One pass over all pods. In a pass without failed calls every pod whose agent has ended is stopped, and no
     other is touched; a failed call leaves the pods after it untouched. A pod without a status for its agent
     fails the pass.
     */
    method TerminateFinishedAgentPods() returns (ok: bool, ghost reached: nat)
      modifies this
      ensures |pods| == |old(pods)| && reached <= |pods| && (ok ==> reached == |pods|)
      ensures forall i | 0 <= i < |pods| && Regular(old(pods)[i]) ::
                if i < reached then Settled(old(pods)[i], pods[i])
                else if i == reached then Touched(old(pods)[i], pods[i])
                else pods[i] == old(pods)[i]
      ensures (exists p | p in old(pods) :: AgentHasNoStatus(p)) ==> !ok
      ensures failures == old(failures) && (forall p | p in old(pods) :: Regular(p)) ==> ok
    {
      hide Settled, ImagesReplaced, Aligned, AgentHasNoStatus;
      ok, reached := true, 0;
      for i := 0 to |pods|
        invariant ok && |pods| == |old(pods)| && reached == i && failures >= old(failures)
        invariant forall k | 0 <= k < i && Regular(old(pods)[k]) :: Settled(old(pods)[k], pods[k])
        invariant forall k | i <= k < |pods| :: pods[k] == old(pods)[k]
        invariant forall k | 0 <= k < i :: !AgentHasNoStatus(old(pods)[k])
      {
        assert old(pods)[i] in old(pods);
        ok := TerminateFinishedPod(i);
        if !ok {
          return;
        }
        reached := i + 1;
      }
    }
  }

  // Where the pass looks at the statuses, they agree with the spec.
  ghost predicate Regular(pod: Pod) {
    pod.phase == Running && |pod.containers| > 1 ==> Aligned(pod)
  }

  ghost predicate AgentHasNoStatus(pod: Pod) {
    && pod.phase == Running && CAPABILITIES in pod.annotations && |pod.containers| > 1
    && StatusIndex(pod, pod.containers[0].name) == |pod.statuses|
  }

  lemma {:induction false} StatusOfAgent(pod: Pod)
    requires Aligned(pod) && |pod.containers| > 0
    ensures StatusIndex(pod, pod.containers[0].name) < |pod.statuses|
  {
    IndicesAreInverse(pod);
  }

  lemma {:induction false} AgentStillRuns(pod: Pod, agent: nat)
    requires Aligned(pod) && |pod.containers| > 0 && agent == StatusIndex(pod, pod.containers[0].name)
    requires agent < |pod.statuses| && pod.statuses[agent].state != Ended
    ensures !MustStop(pod)
  {
  }

  lemma {:induction false} IndicesInRange(pod: Pod, agent: nat, indices: seq<nat>)
    requires RunningOthers(pod, agent, |pod.statuses|, indices)
    ensures forall j | j in indices :: j < |pod.statuses|
  {
  }

  /**
   A pass changes a pod exactly if the pod runs, is an agent's and not marked yet, the status of its agent has
   ended, and that of some other container runs.
   */
  lemma {:induction false} ChangedExactlyWhenFinished(before: Pod, after: Pod)
    requires Settled(before, after) && Aligned(before)
    ensures after != before <==>
            && before.phase == Running && "AzurePipelinesCapabilities" in before.annotations
            && "TerminationInProgress" !in before.annotations && before.containers != []
            && (exists j | 0 <= j < |before.statuses| ::
                  before.statuses[j].name == before.containers[0].name && before.statuses[j].state == Ended)
            && (exists j | 0 <= j < |before.statuses| ::
                  before.statuses[j].name != before.containers[0].name && before.statuses[j].state == Active)
  {
    if MustStop(before) {
      assert TERMINATING in after.annotations && TERMINATING !in before.annotations;
    }
    if j :| 0 <= j < |before.statuses| && before.containers != []
            && before.statuses[j].name != before.containers[0].name && before.statuses[j].state == Active {
      assert HasContainer(before, j);
      var i :| 0 <= i < |before.containers| && before.containers[i].name == before.statuses[j].name;
      assert i > 0 && InState(before, i, Active);
    }
  }

  /** Then the container of every other status that runs gets an image that is not the one it runs. */
  lemma {:induction false} OtherImageIsNonExistent(before: Pod, after: Pod, i: nat, j: nat)
    requires Settled(before, after) && Aligned(before) && after != before
    requires 0 < i < |before.containers| && j < |before.statuses| && before.statuses[j].name == before.containers[i].name
    ensures i < |after.containers| && after.containers[i].name == before.containers[i].name
    ensures if before.statuses[j].state == Active
            then after.containers[i].image == before.statuses[j].image + "does-not-exist-for-sure" != before.statuses[j].image
            else after.containers[i] == before.containers[i]
  {
    StateOfContainer(before, i, Active);
  }

  /**
   A stopped pod keeps its agent container; whatever happens to its statuses and to its phase, it is left alone
   by later passes and is no longer counted.
   */
  lemma {:induction false} StoppedForGood(before: Pod, after: Pod, statuses: seq<Status>, phase: Phase, again: Pod)
    requires Settled(before, after) && MustStop(before)
    requires Settled(after.(statuses := statuses, phase := phase), again)
    ensures again == after.(statuses := statuses, phase := phase) && !Listing.Counted(again)
    ensures after.containers[0] == before.containers[0] && |after.containers| == |before.containers|
  {
  }

  // The status of a container is unique, so replacing the images twice is replacing them once.
  lemma {:induction false} StoppedTwice(before: Pod, half: seq<Container>, again: seq<Container>)
    requires Aligned(before) && Stopped(before, half) && Stopped(before.(containers := half), again)
    ensures again == half
  {
    var middle := before.(containers := half);
    forall i | 0 <= i < |half| ensures half[i].name == before.containers[i].name {
    }
    forall i | 0 <= i < |half| ensures InState(middle, i, Active) == InState(before, i, Active) && again[i] == half[i] {
    }
  }

  /** A pass that was cut short between the two updates of a pod is made up for by the next one. */
  lemma {:induction false} NextPassCompletes(before: Pod, half: Pod, after: Pod)
    requires Aligned(before) && ImagesReplaced(before, half) && Settled(half, after)
    ensures Settled(before, after)
  {
    forall i | 0 <= i < |half.containers|
      ensures half.containers[i].name == before.containers[i].name
      ensures forall state :: InState(half, i, state) == InState(before, i, state)
    {
    }
    var i :| 0 < i < |before.containers| && InState(before, i, Active);
    assert InState(half, i, Active) && InState(half, 0, Ended) && MustStop(half);
    StoppedTwice(before, half.containers, after.containers);
  }
}
