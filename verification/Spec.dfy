/** The parts of the AutoScaledAgent resource, and of pods, that the operator's logic depends on. */
module Spec {
  import opened Clock

  type Caps = map<string, string>

  // Volume mounts are given by the name of the mounted volume; "" stands for an absent cpu or memory quantity.
  datatype Container = Container(name: string, image: string, mounts: seq<string>, cpu: string, memory: string)

  datatype Template = Template(
    caps: Caps,
    minCount: nat,
    maxCount: nat,
    annotations: map<string, string>,
    containers: seq<Container>)

  datatype Phase = Pending | Running | Unknown | Succeeded | Failed

  predicate Terminated(phase: Phase) {
    phase == Succeeded || phase == Failed
  }

  datatype ContainerState = Waiting | Active | Ended

  datatype Status = Status(name: string, image: string, state: ContainerState)

  // No statuses at all (nil in the API object) means that the pod has not been scheduled yet.
  datatype Pod = Pod(
    name: string,
    annotations: map<string, string>,
    deleting: bool,
    phase: Phase,
    startTime: Time,
    containers: seq<Container>,
    statuses: seq<Status>)

  const CAPABILITIES: string := "AzurePipelinesCapabilities"
  const TERMINATING: string := "TerminationInProgress"

  const EXTRA_CONTAINERS: string := "ExtraAgentContainers"

  // All volume mounts of a pod, container by container.
  function Mounts(containers: seq<Container>): seq<string> {
    if containers == [] then [] else containers[0].mounts + Mounts(containers[1..])
  }

  lemma {:induction false} MountsMember(containers: seq<Container>, v: string)
    ensures v in Mounts(containers) <==> exists i | 0 <= i < |containers| :: v in containers[i].mounts
  {
    if containers != [] {
      MountsMember(containers[1..], v);
      assert forall i | 0 < i < |containers| :: containers[i] == containers[1..][i - 1];
      if i :| 0 <= i < |containers[1..]| && v in containers[1..][i].mounts {
        assert v in containers[i + 1].mounts;
      }
    }
  }
}
