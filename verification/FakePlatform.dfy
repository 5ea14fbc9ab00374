/**
 The platform that the tests run against: a table of jobs, a table of agents and a log of requests, and the
 agents that race for the jobs. Here every request is one step, as is every call that a test makes; module
 Races takes the handling of requests apart, since the tests do not take the lock that the handlers take.
 */
module FakePlatform {
  import opened Outcomes

  datatype JobState = Pending | InProgress | Finished

  function Rank(s: JobState): nat {
    match s
    case Pending => 0
    case InProgress => 1
    case Finished => 2
  }

  // The serial number says which call to AddJob made the job: IDs are used again after a cancellation.
  datatype Job = Job(id: int, serial: nat, state: JobState)

  datatype Agent = Agent(name: string, id: int)

  datatype Request =
    | AssignJob(agent: string, id: int, serial: nat)
    | FinishJob(agent: string, id: int)
    | CreateAgent(agent: string)
    | ReplaceAgent(agent: string)
    | DeleteAgent(agent: string)
    | ListJobs

  datatype Platform = Platform(jobs: seq<Job>, agents: seq<Agent>, requests: seq<Request>, poolId: int, adds: nat)

  datatype Status = Accepted | NotFound | Conflict | BadRequest

  function JobIndex(jobs: seq<Job>, id: int): (i: nat)
    ensures i <= |jobs|
    ensures i < |jobs| ==> jobs[i].id == id
    ensures forall k | 0 <= k < i :: jobs[k].id != id
  {
    if jobs == [] || jobs[0].id == id then 0 else 1 + JobIndex(jobs[1..], id)
  }

  function Save(jobs: seq<Job>, job: Job): seq<Job> {
    var i := JobIndex(jobs, job.id);
    if i < |jobs| then jobs[i := job] else jobs + [job]
  }

  function Knows(agents: seq<Agent>, name: string): bool {
    exists i | 0 <= i < |agents| :: agents[i].name == name
  }

  function Add(p: Platform, id: int, poolId: int): (Platform, bool) {
    if JobIndex(p.jobs, id) < |p.jobs| || p.poolId != poolId then (p, false)
    else (p.(jobs := Save(p.jobs, Job(id, p.adds, Pending)), adds := p.adds + 1), true)
  }

  function Cancel(p: Platform, id: int): (Platform, bool) {
    var i := JobIndex(p.jobs, id);
    if i < |p.jobs| then (p.(jobs := p.jobs[..i] + p.jobs[i + 1..]), true) else (p, false)
  }

  function Reset(p: Platform): Platform {
    p.(jobs := [], agents := [], requests := [], poolId := 0)
  }

  // The capabilities in the header may fail to decode.
  function Assign(p: Platform, id: int, agent: string, decodes: bool): (Platform, Status) {
    var i := JobIndex(p.jobs, id);
    if i == |p.jobs| then (p, NotFound)
    else if p.jobs[i].state != Pending then (p, Conflict)
    else if !decodes then (p, BadRequest)
    else if !Knows(p.agents, agent) then (p, NotFound)
    else
      (p.(jobs := Save(p.jobs, p.jobs[i].(state := InProgress)),
          requests := p.requests + [AssignJob(agent, id, p.jobs[i].serial)]), Accepted)
  }

  function Finish(p: Platform, id: int, agent: string): (Platform, Status) {
    var i := JobIndex(p.jobs, id);
    if i == |p.jobs| then (p, NotFound)
    else (p.(jobs := Save(p.jobs, p.jobs[i].(state := Finished)), requests := p.requests + [FinishJob(agent, id)]), Accepted)
  }

  // The first job of the table with the ID.
  ghost predicate IsFirst(jobs: seq<Job>, id: int, i: nat) {
    i < |jobs| && jobs[i].id == id && forall k | 0 <= k < i :: jobs[k].id != id
  }

  ghost predicate NoJob(jobs: seq<Job>, id: int) {
    forall k | 0 <= k < |jobs| :: jobs[k].id != id
  }

  lemma {:induction false} FirstIsIndex(jobs: seq<Job>, id: int)
    ensures NoJob(jobs, id) <==> JobIndex(jobs, id) == |jobs|
    ensures forall i: nat :: IsFirst(jobs, id, i) <==> i == JobIndex(jobs, id) < |jobs|
  {
  }

  /**
   Exactly how a request for a job is answered: it is refused, with nothing changed, if there is no such job, or
   it is not pending, or the capabilities do not decode, or the agent is not registered, in this order.
   Otherwise the job, and nothing else in the table, is in progress, and the request is logged.
   */
  lemma {:induction false} AssignMeans(p: Platform, id: int, agent: string, decodes: bool)
    ensures NoJob(p.jobs, id) ==> Assign(p, id, agent, decodes) == (p, NotFound)
    ensures forall i: nat | IsFirst(p.jobs, id, i) ::
              Assign(p, id, agent, decodes) ==
              if p.jobs[i].state != Pending then (p, Conflict)
              else if !decodes then (p, BadRequest)
              else if forall k | 0 <= k < |p.agents| :: p.agents[k].name != agent then (p, NotFound)
              else
                (p.(jobs := p.jobs[i := Job(id, p.jobs[i].serial, InProgress)],
                    requests := p.requests + [AssignJob(agent, id, p.jobs[i].serial)]), Accepted)
  {
    FirstIsIndex(p.jobs, id);
    hide JobIndex;
  }

  /** A job is finished, and that is logged, exactly if it is in the table; no other job changes. */
  lemma {:induction false} FinishMeans(p: Platform, id: int, agent: string)
    ensures NoJob(p.jobs, id) ==> Finish(p, id, agent) == (p, NotFound)
    ensures forall i: nat | IsFirst(p.jobs, id, i) ::
              Finish(p, id, agent) ==
              (p.(jobs := p.jobs[i := Job(id, p.jobs[i].serial, Finished)], requests := p.requests + [FinishJob(agent, id)]), Accepted)
  {
    FirstIsIndex(p.jobs, id);
    hide JobIndex;
  }

  /** A new ID for the platform's own pool is appended as a pending job; nothing else can be added. */
  lemma {:induction false} AddMeans(p: Platform, id: int, poolId: int)
    ensures Add(p, id, poolId) ==
            if NoJob(p.jobs, id) && p.poolId == poolId
            then (p.(jobs := p.jobs + [Job(id, p.adds, Pending)], adds := p.adds + 1), true) else (p, false)
  {
    FirstIsIndex(p.jobs, id);
    hide JobIndex;
  }

  /** Cancelling takes exactly the first job with the ID out of the table. */
  lemma {:induction false} CancelMeans(p: Platform, id: int)
    ensures NoJob(p.jobs, id) ==> Cancel(p, id) == (p, false)
    ensures forall i: nat | IsFirst(p.jobs, id, i) :: Cancel(p, id) == (p.(jobs := p.jobs[..i] + p.jobs[i + 1..]), true)
  {
    FirstIsIndex(p.jobs, id);
    hide JobIndex;
  }

  class Server {
    var jobs: seq<Job>
    var agents: seq<Agent>
    var requests: seq<Request>
    var poolId: int
    var adds: nat

    ghost function State(): Platform
      reads this
    {
      Platform(jobs, agents, requests, poolId, adds)
    }

    constructor ()
      ensures State() == Platform([], [], [], 0, 0)
    {
      jobs, agents, requests, poolId, adds := [], [], [], 0, 0;
    }

    method GetJob(id: int) returns (job: Option<Job>)
      ensures var i := JobIndex(jobs, id);
              job == if i < |jobs| then Some(jobs[i]) else None
    {
      for i := 0 to |jobs|
        invariant forall k | 0 <= k < i :: jobs[k].id != id
      {
        if jobs[i].id == id {
          return Some(jobs[i]);
        }
      }
      return None;
    }

    method SaveJob(job: Job)
      modifies this`jobs
      ensures jobs == Save(old(jobs), job)
    {
      var found := false;
      for i := 0 to |jobs|
        invariant !found && jobs == old(jobs) && forall k | 0 <= k < i :: jobs[k].id != job.id
      {
        if jobs[i].id == job.id {
          jobs := jobs[i := job];
          found := true;
          break;
        }
      }
      if !found {
        jobs := jobs + [job];
      }
    }

    method AddJob(id: int, pool: int) returns (ok: bool)
      modifies this
      ensures (State(), ok) == Add(old(State()), id, pool)
    {
      var existing := GetJob(id);
      if existing.Some? || poolId != pool {
        return false;
      }
      SaveJob(Job(id, adds, Pending));
      adds := adds + 1;
      ok := true;
    }

    method CancelJob(id: int) returns (ok: bool)
      modifies this
      ensures (State(), ok) == Cancel(old(State()), id)
    {
      for i := 0 to |jobs|
        invariant jobs == old(jobs) && forall k | 0 <= k < i :: jobs[k].id != id
      {
        if jobs[i].id == id {
          jobs := jobs[..i] + jobs[i + 1..];
          return true;
        }
      }
      return false;
    }

    method HandleAssignJob(id: int, agent: string, decodes: bool) returns (status: Status)
      modifies this
      ensures (State(), status) == Assign(old(State()), id, agent, decodes)
    {
      var job := GetJob(id);
      if job.None? {
        return NotFound;
      }
      if job.value.state != Pending {
        return Conflict;
      }
      if !decodes {
        return BadRequest;
      }
      var known := false;
      for i := 0 to |agents|
        invariant known <==> exists k | 0 <= k < i :: agents[k].name == agent
      {
        if agents[i].name == agent {
          known := true;
        }
      }
      if !known {
        return NotFound;
      }
      SaveJob(job.value.(state := InProgress));
      requests := requests + [AssignJob(agent, id, job.value.serial)];
      status := Accepted;
    }

    method HandleFinishJob(id: int, agent: string) returns (status: Status)
      modifies this
      ensures (State(), status) == Finish(old(State()), id, agent)
    {
      var job := GetJob(id);
      if job.None? {
        return NotFound;
      }
      SaveJob(job.value.(state := Finished));
      requests := requests + [FinishJob(agent, id)];
      status := Accepted;
    }
  }

  // What an agent believes to hold, by name, and, as history, whom each job was assigned to.
  datatype System = System(platform: Platform, holding: map<string, (int, nat)>, granted: map<nat, string>)

  const Start: System := System(Platform([], [], [], 0, 0), map[], map[])

  datatype Step =
    | TestAdds(id: int, poolId: int)
    | TestCancels(id: int)
    | TestResets
    | TestCreatesPool(poolId: int)
    | Attempts(agent: string, id: int, decodes: bool)
    | Completes(agent: string)
    | Abandons(agent: string)
    | Registers(agent: string)
    | Deregisters(id: int)
    | Lists

  // An agent tries to get a job only while it has none, and finishes only the one it has.
  predicate Enabled(s: System, step: Step) {
    match step
    case Attempts(agent, _, _) => agent !in s.holding
    case Completes(agent) => agent in s.holding
    case Abandons(agent) => agent in s.holding
    case _ => true
  }

  function AgentIndex(agents: seq<Agent>, id: int): (i: nat)
    ensures i <= |agents|
  {
    if agents == [] || agents[0].id == id then 0 else 1 + AgentIndex(agents[1..], id)
  }

  function Apply(s: System, step: Step): System
    requires Enabled(s, step)
  {
    var p := s.platform;
    match step
    case TestAdds(id, poolId) => s.(platform := Add(p, id, poolId).0)
    case TestCancels(id) => s.(platform := Cancel(p, id).0)
    case TestResets => s.(platform := Reset(p))
    case TestCreatesPool(poolId) => s.(platform := p.(poolId := poolId))
    case Attempts(agent, id, decodes) =>
      var (p', status) := Assign(p, id, agent, decodes);
      if status != Accepted then s.(platform := p')
      else
        var serial := p.jobs[JobIndex(p.jobs, id)].serial;
        System(p', s.holding[agent := (id, serial)], s.granted[serial := agent])
    case Completes(agent) => s.(platform := Finish(p, s.holding[agent].0, agent).0, holding := s.holding - {agent})
    case Abandons(agent) => s.(holding := s.holding - {agent})
    case Registers(agent) =>
      if Knows(p.agents, agent) then s.(platform := p.(requests := p.requests + [ReplaceAgent(agent)]))
      else s.(platform := p.(agents := p.agents + [Agent(agent, |p.agents| + 1)], requests := p.requests + [CreateAgent(agent)]))
    case Deregisters(id) =>
      var i := AgentIndex(p.agents, id);
      if i == |p.agents| then s
      else
        var log := if p.agents[i].name == "" then [] else [DeleteAgent(p.agents[i].name)];
        s.(platform := p.(agents := p.agents[..i] + p.agents[i + 1..], requests := p.requests + log))
    case Lists => s.(platform := p.(requests := p.requests + [ListJobs]))
  }

  ghost predicate JobsDistinct(jobs: seq<Job>, adds: nat) {
    && (forall i | 0 <= i < |jobs| :: jobs[i].serial < adds)
    && (forall i, j | 0 <= i < j < |jobs| :: jobs[i].id != jobs[j].id && jobs[i].serial != jobs[j].serial)
  }

  ghost predicate PendingUngranted(jobs: seq<Job>, granted: map<nat, string>) {
    forall i | 0 <= i < |jobs| && jobs[i].state == Pending :: jobs[i].serial !in granted
  }

  ghost predicate HoldersGranted(holding: map<string, (int, nat)>, granted: map<nat, string>) {
    forall a | a in holding :: holding[a].1 in granted && granted[holding[a].1] == a
  }

  ghost predicate LogGranted(requests: seq<Request>, granted: map<nat, string>) {
    && (forall i | 0 <= i < |requests| && requests[i].AssignJob? ::
          requests[i].serial in granted && granted[requests[i].serial] == requests[i].agent)
    && (forall i, j | 0 <= i < j < |requests| && requests[i].AssignJob? && requests[j].AssignJob? ::
          requests[i].serial != requests[j].serial)
  }

  /** IDs are unique, and no job was assigned twice. */
  ghost predicate Invariant(s: System) {
    && JobsDistinct(s.platform.jobs, s.platform.adds)
    && (forall n | n in s.granted :: n < s.platform.adds)
    && PendingUngranted(s.platform.jobs, s.granted)
    && HoldersGranted(s.holding, s.granted)
    && LogGranted(s.platform.requests, s.granted)
  }

  lemma {:induction false} AddKeepsInvariant(s: System, id: int, poolId: int)
    requires Invariant(s)
    ensures Invariant(s.(platform := Add(s.platform, id, poolId).0))
  {
  }

  lemma {:induction false} CancelKeepsInvariant(s: System, id: int)
    requires Invariant(s)
    ensures Invariant(s.(platform := Cancel(s.platform, id).0))
  {
    hide HoldersGranted, LogGranted;
  }

  lemma {:induction false} AttemptKeepsInvariant(s: System, agent: string, id: int, decodes: bool)
    requires Invariant(s) && agent !in s.holding
    ensures Invariant(Apply(s, Attempts(agent, id, decodes)))
  {
  }

  lemma {:induction false} FinishKeepsInvariant(s: System, agent: string)
    requires Invariant(s) && agent in s.holding
    ensures Invariant(Apply(s, Completes(agent)))
  {
  }

  lemma {:induction false} OtherKeepsInvariant(s: System, step: Step)
    requires Invariant(s) && Enabled(s, step)
    requires !step.TestAdds? && !step.TestCancels? && !step.Attempts? && !step.Completes?
    ensures Invariant(Apply(s, step))
  {
    hide JobsDistinct, PendingUngranted;
    assert step.TestResets? ==> Invariant(s) && Invariant(s.(platform := Reset(s.platform))) by {
      assert JobsDistinct([], s.platform.adds) && PendingUngranted([], s.granted) by { NoJobs(s.platform.adds, s.granted); }
    }
  }

  lemma {:induction false} NoJobs(adds: nat, granted: map<nat, string>)
    ensures JobsDistinct([], adds) && PendingUngranted([], granted)
  {
  }

  lemma {:induction false} StepKeepsInvariant(s: System, step: Step)
    requires Invariant(s) && Enabled(s, step)
    ensures Invariant(Apply(s, step))
  {
    hide Invariant;
    match step {
      case TestAdds(id, poolId) => AddKeepsInvariant(s, id, poolId);
      case TestCancels(id) => CancelKeepsInvariant(s, id);
      case Attempts(agent, id, decodes) => AttemptKeepsInvariant(s, agent, id, decodes);
      case Completes(agent) => FinishKeepsInvariant(s, agent);
      case _ => OtherKeepsInvariant(s, step);
    }
  }

  ghost predicate IsRun(s: System, steps: seq<Step>)
    decreases |steps|
  {
    steps == [] || (Enabled(s, steps[0]) && IsRun(Apply(s, steps[0]), steps[1..]))
  }

  ghost function End(s: System, steps: seq<Step>): System
    requires IsRun(s, steps)
    decreases |steps|
  {
    if steps == [] then s else End(Apply(s, steps[0]), steps[1..])
  }

  lemma {:induction false} RunKeepsInvariant(s: System, steps: seq<Step>)
    requires Invariant(s) && IsRun(s, steps)
    ensures Invariant(End(s, steps))
    decreases |steps|
  {
    hide Invariant, Apply;
    if steps != [] {
      StepKeepsInvariant(s, steps[0]);
      RunKeepsInvariant(Apply(s, steps[0]), steps[1..]);
    }
  }

  /** However such steps interleave: job IDs are unique, and no two agents hold the same job. */
  lemma {:induction false} NoJobIsHeldTwice(steps: seq<Step>)
    requires IsRun(Start, steps)
    ensures var s := End(Start, steps);
            && (forall i, j | 0 <= i < j < |s.platform.jobs| :: s.platform.jobs[i].id != s.platform.jobs[j].id)
            && (forall a, b | a in s.holding && b in s.holding && a != b :: s.holding[a].1 != s.holding[b].1)
  {
    RunKeepsInvariant(Start, steps);
  }

  predicate Present(p: Platform, id: int) {
    JobIndex(p.jobs, id) < |p.jobs|
  }

  function JobOf(p: Platform, id: int): Job
    requires Present(p, id)
  {
    p.jobs[JobIndex(p.jobs, id)]
  }

  predicate Removes(step: Step, id: int) {
    step == TestCancels(id) || step.TestResets?
  }

  // Requests logged after the first n: any that assign the job have its serial number, and there are none
  // unless it was pending.
  ghost predicate LoggedSince(before: Platform, after: Platform, id: int)
    requires Present(before, id)
  {
    && before.requests <= after.requests
    && forall i | |before.requests| <= i < |after.requests| && after.requests[i].AssignJob? && after.requests[i].id == id ::
         after.requests[i].serial == JobOf(before, id).serial && JobOf(before, id).state == Pending
  }

  ghost predicate Progressed(before: Platform, after: Platform, id: int)
    requires Present(before, id)
  {
    && Present(after, id) && JobOf(after, id).serial == JobOf(before, id).serial
    && Rank(JobOf(after, id).state) >= Rank(JobOf(before, id).state)
    && LoggedSince(before, after, id)
  }

  lemma {:induction false} SaveKeepsOthers(jobs: seq<Job>, job: Job, id: int)
    requires JobIndex(jobs, id) < |jobs|
    ensures JobIndex(Save(jobs, job), id) == JobIndex(jobs, id) < |Save(jobs, job)|
    ensures Save(jobs, job)[JobIndex(jobs, id)] == if job.id == id then job else jobs[JobIndex(jobs, id)]
  {
    var i, saved := JobIndex(jobs, id), Save(jobs, job);
    assert saved[i].id == id;
    assert forall k | 0 <= k < i :: saved[k].id == jobs[k].id;
  }

  lemma {:induction false} SaveProgresses(p: Platform, job: Job, log: seq<Request>, adds: nat, id: int)
    requires Present(p, id)
    requires job.id == id ==> job.serial == JobOf(p, id).serial && Rank(job.state) >= Rank(JobOf(p, id).state)
    requires forall r | r in log && r.AssignJob? && r.id == id ::
               r.serial == JobOf(p, id).serial && JobOf(p, id).state == Pending
    ensures Progressed(p, p.(jobs := Save(p.jobs, job), requests := p.requests + log, adds := adds), id)
  {
    SaveKeepsOthers(p.jobs, job, id);
    hide Save, Rank;
    var after := p.requests + log;
    forall i | |p.requests| <= i < |after| ensures after[i] in log {
      assert after[i] == log[i - |p.requests|];
    }
  }

  lemma {:induction false} CancelKeepsOthers(p: Platform, cancelled: int, id: int)
    requires Present(p, id) && cancelled != id && JobsDistinct(p.jobs, p.adds)
    ensures var p' := Cancel(p, cancelled).0; Present(p', id) && JobOf(p', id) == JobOf(p, id)
  {
    var i, c := JobIndex(p.jobs, id), JobIndex(p.jobs, cancelled);
    if c < |p.jobs| {
      FoundAt(p.jobs[..c] + p.jobs[c + 1..], id, if i < c then i else i - 1);
    }
  }

  lemma {:induction false} FoundAt(jobs: seq<Job>, id: int, i: nat)
    requires i < |jobs| && jobs[i].id == id && forall k | 0 <= k < i :: jobs[k].id != id
    ensures JobIndex(jobs, id) == i
  {
  }

  lemma {:induction false} StepProgresses(s: System, step: Step, id: int)
    requires Invariant(s) && Enabled(s, step) && Present(s.platform, id) && !Removes(step, id)
    ensures Progressed(s.platform, Apply(s, step).platform, id)
  {
    hide Invariant, Save, Rank, Progressed, Knows;
    var p := s.platform;
    match step {
      case TestAdds(added, poolId) =>
        NothingProgresses(p, id);
        if !Present(p, added) {
          SaveProgresses(p, Job(added, p.adds, Pending), [], p.adds + 1, id);
          assert p.requests + [] == p.requests;
        }
      case TestCancels(cancelled) => CancelProgresses(s, cancelled, id);
      case Attempts(agent, wanted, decodes) =>
        NothingProgresses(p, id);
        if Assign(p, wanted, agent, decodes).1 == Accepted {
          AssignProgresses(p, agent, wanted, id);
        }
      case Completes(agent) =>
        NothingProgresses(p, id);
        if Present(p, s.holding[agent].0) {
          FinishProgresses(p, agent, s.holding[agent].0, id);
        }
      case _ => OthersProgress(s, step, id);
    }
  }

  lemma {:induction false} AssignProgresses(p: Platform, agent: string, wanted: int, id: int)
    requires Present(p, id) && Present(p, wanted) && JobOf(p, wanted).state == Pending
    ensures var job := JobOf(p, wanted);
            Progressed(p, p.(jobs := Save(p.jobs, job.(state := InProgress)),
                             requests := p.requests + [AssignJob(agent, wanted, job.serial)]), id)
  {
    hide Progressed;
    var job := JobOf(p, wanted);
    SaveProgresses(p, job.(state := InProgress), [AssignJob(agent, wanted, job.serial)], p.adds, id);
  }

  lemma {:induction false} FinishProgresses(p: Platform, agent: string, done: int, id: int)
    requires Present(p, id) && Present(p, done)
    ensures Progressed(p, p.(jobs := Save(p.jobs, JobOf(p, done).(state := Finished)),
                             requests := p.requests + [FinishJob(agent, done)]), id)
  {
    hide Progressed;
    SaveProgresses(p, JobOf(p, done).(state := Finished), [FinishJob(agent, done)], p.adds, id);
  }

  lemma {:induction false} CancelProgresses(s: System, cancelled: int, id: int)
    requires Invariant(s) && Present(s.platform, id) && cancelled != id
    ensures Progressed(s.platform, Cancel(s.platform, cancelled).0, id)
  {
    CancelKeepsOthers(s.platform, cancelled, id);
    hide JobOf, Invariant;
  }

  lemma {:induction false} OthersProgress(s: System, step: Step, id: int)
    requires Enabled(s, step) && Present(s.platform, id) && !Removes(step, id)
    requires !step.TestAdds? && !step.TestCancels? && !step.Attempts? && !step.Completes?
    ensures Progressed(s.platform, Apply(s, step).platform, id)
  {
  }

  lemma {:induction false} ProgressedTwice(a: Platform, b: Platform, c: Platform, id: int)
    requires Present(a, id) && Progressed(a, b, id) && Progressed(b, c, id)
    ensures Progressed(a, c, id)
  {
  }

  /** A job never goes back to an earlier state while it is in the table. */
  lemma {:induction false} RunProgresses(s: System, steps: seq<Step>, id: int)
    requires Invariant(s) && IsRun(s, steps) && Present(s.platform, id)
    requires forall i | 0 <= i < |steps| :: !Removes(steps[i], id)
    ensures Progressed(s.platform, End(s, steps).platform, id)
    ensures Present(End(s, steps).platform, id)
    ensures JobOf(s.platform, id).state == InProgress ==> JobOf(End(s, steps).platform, id).state != Pending
    ensures JobOf(s.platform, id).state == Finished ==> JobOf(End(s, steps).platform, id).state == Finished
    decreases |steps|
  {
    hide Invariant, Apply, JobOf, Present, Removes;
    if steps == [] {
      NothingProgresses(s.platform, id);
    } else {
      var next := Apply(s, steps[0]);
      StepKeepsInvariant(s, steps[0]);
      StepProgresses(s, steps[0], id);
      RunProgresses(next, steps[1..], id);
      ProgressedTwice(s.platform, next.platform, End(s, steps).platform, id);
    }
    NeverBack(s.platform, End(s, steps).platform, id);
  }

  lemma {:induction false} NeverBack(before: Platform, after: Platform, id: int)
    requires Present(before, id) && Progressed(before, after, id)
    ensures Present(after, id)
    ensures JobOf(before, id).state == InProgress ==> JobOf(after, id).state != Pending
    ensures JobOf(before, id).state == Finished ==> JobOf(after, id).state == Finished
  {
  }

  lemma {:induction false} NothingProgresses(p: Platform, id: int)
    requires Present(p, id)
    ensures Progressed(p, p, id)
  {
  }

  /**
   Between the addition of a job and its removal at most one AssignJob is logged for its ID, and none once the
   job is no longer pending.
   */
  lemma {:induction false} AssignedAtMostOnce(before: seq<Step>, s: System, steps: seq<Step>, id: int, i: nat, j: nat)
    requires IsRun(Start, before) && s == End(Start, before)
    requires IsRun(s, steps) && Present(s.platform, id)
    requires forall k | 0 <= k < |steps| :: !Removes(steps[k], id)
    requires var log := End(s, steps).platform.requests;
             && |s.platform.requests| <= i < |log| && log[i].AssignJob? && log[i].id == id
             && |s.platform.requests| <= j < |log| && log[j].AssignJob? && log[j].id == id
    ensures i == j && JobOf(s.platform, id).state == Pending
  {
    RunKeepsInvariant(Start, before);
    RunProgresses(s, steps, id);
    RunKeepsInvariant(s, steps);
  }

  lemma {:induction false} RunExtends(s: System, steps: seq<Step>, step: Step)
    requires IsRun(s, steps) && Enabled(End(s, steps), step)
    ensures IsRun(s, steps + [step]) && End(s, steps + [step]) == Apply(End(s, steps), step)
    decreases |steps|
  {
    hide Apply, Enabled;
    if steps == [] {
      assert [] + [step] == [step] && [step][1..] == [];
    } else {
      RunExtends(Apply(s, steps[0]), steps[1..], step);
      assert (steps + [step])[1..] == steps[1..] + [step];
    }
  }

  lemma {:induction false} Play(steps: seq<Step>, s: System, step: Step) returns (steps': seq<Step>, s': System)
    requires IsRun(Start, steps) && s == End(Start, steps) && Enabled(s, step)
    ensures IsRun(Start, steps') && s' == End(Start, steps') && s' == Apply(s, step)
  {
    RunExtends(Start, steps, step);
    steps', s' := steps + [step], Apply(s, step);
  }

  // Jobs are as old as the table, or were added after it.
  ghost predicate OldOrAdded(before: Platform, after: Platform) {
    && before.adds <= after.adds
    && forall j | j in after.jobs ::
         j.serial >= before.adds || exists i | 0 <= i < |before.jobs| :: before.jobs[i].id == j.id && before.jobs[i].serial == j.serial
  }

  lemma {:induction false} SavedIsOld(jobs: seq<Job>, job: Job, j: Job)
    requires j in Save(jobs, job)
    ensures j == job || j in jobs
  {
  }

  lemma {:induction false} StepOldOrAdded(s: System, step: Step)
    requires Enabled(s, step)
    ensures OldOrAdded(s.platform, Apply(s, step).platform)
  {
    hide Save, Knows;
    var p, p' := s.platform, Apply(s, step).platform;
    forall j | j in p'.jobs
      ensures j.serial >= p.adds || exists i | 0 <= i < |p.jobs| :: p.jobs[i].id == j.id && p.jobs[i].serial == j.serial
    {
      match step {
        case TestAdds(id, _) =>
          if p'.adds > p.adds { SavedIsOld(p.jobs, Job(id, p.adds, Pending), j); }
        case Attempts(_, id, _) =>
          if Present(p, id) && p' != p { SavedIsOld(p.jobs, JobOf(p, id).(state := InProgress), j); }
        case Completes(agent) =>
          var id := s.holding[agent].0;
          if Present(p, id) { SavedIsOld(p.jobs, JobOf(p, id).(state := Finished), j); }
        case _ =>
      }
    }
  }

  lemma {:induction false} OldOrAddedTwice(a: Platform, b: Platform, c: Platform)
    requires OldOrAdded(a, b) && OldOrAdded(b, c)
    ensures OldOrAdded(a, c)
  {
    forall j | j in c.jobs
      ensures j.serial >= a.adds || exists i | 0 <= i < |a.jobs| :: a.jobs[i].id == j.id && a.jobs[i].serial == j.serial
    {
      if j.serial < b.adds {
        var i :| 0 <= i < |b.jobs| && b.jobs[i].id == j.id && b.jobs[i].serial == j.serial;
        assert b.jobs[i] in b.jobs;
      }
    }
  }

  predicate Drops(step: Step, agent: string) {
    step == Completes(agent) || step == Abandons(agent)
  }

  // An agent that keeps its job is not granted another one.
  ghost predicate StillHolds(before: System, after: System, agent: string) {
    && agent in before.holding && agent in after.holding && after.holding[agent] == before.holding[agent]
    && forall n | n in after.granted && after.granted[n] == agent :: n in before.granted && before.granted[n] == agent
  }

  lemma {:induction false} HolderRun(s: System, steps: seq<Step>, agent: string)
    requires IsRun(s, steps) && agent in s.holding
    requires forall i | 0 <= i < |steps| :: !Drops(steps[i], agent)
    ensures StillHolds(s, End(s, steps), agent) && OldOrAdded(s.platform, End(s, steps).platform)
    decreases |steps|
  {
    hide OldOrAdded;
    if steps == [] {
      assert OldOrAdded(s.platform, s.platform) by { NothingAdded(s.platform); }
    } else {
      var next := Apply(s, steps[0]);
      HolderStep(s, steps[0], agent);
      StepOldOrAdded(s, steps[0]);
      hide Apply;
      HolderRun(next, steps[1..], agent);
      OldOrAddedTwice(s.platform, next.platform, End(s, steps).platform);
    }
  }

  lemma {:induction false} NothingAdded(p: Platform)
    ensures OldOrAdded(p, p)
  {
  }

  lemma {:induction false} HolderStep(s: System, step: Step, agent: string)
    requires Enabled(s, step) && agent in s.holding && !Drops(step, agent)
    ensures StillHolds(s, Apply(s, step), agent)
  {
    hide Save, Knows, JobIndex;
  }

  lemma {:induction false} RunSplits(s: System, steps: seq<Step>, i: nat)
    requires IsRun(s, steps) && i <= |steps|
    ensures IsRun(s, steps[..i]) && IsRun(End(s, steps[..i]), steps[i..])
    ensures End(End(s, steps[..i]), steps[i..]) == End(s, steps)
    decreases |steps|
  {
    hide Apply, Enabled;
    if i == 0 {
      assert steps[..0] == [] && steps[0..] == steps;
    } else {
      RunSplits(Apply(s, steps[0]), steps[1..], i - 1);
      assert steps[..i][1..] == steps[1..][..i - 1] && steps[1..][i - 1..] == steps[i..];
    }
  }

  lemma {:induction false} RemovedIsAbsent(s: System, step: Step, id: int)
    requires Invariant(s) && Enabled(s, step) && Removes(step, id)
    ensures !Present(Apply(s, step).platform, id)
  {
    hide Save, Knows;
    var p := s.platform;
    if step == TestCancels(id) && Present(p, id) {
      var i := JobIndex(p.jobs, id);
      assert forall k | 0 <= k < |p.jobs| && k != i :: p.jobs[k].id != id;
    }
  }

  // Whatever has the ID after a removal was added since, so it was not granted before.
  lemma {:induction false} ReplacedIsNotGranted(s: System, steps: seq<Step>, agent: string, id: int, i: nat)
    requires Invariant(s) && IsRun(s, steps) && agent in s.holding && i < |steps| && Removes(steps[i], id)
    requires forall k | 0 <= k < |steps| :: !Drops(steps[k], agent)
    requires Present(End(s, steps).platform, id)
    ensures var e := End(s, steps); var n := JobOf(e.platform, id).serial; n in e.granted ==> e.granted[n] != agent
  {
    hide Apply, Enabled, Drops;
    RunSplits(s, steps, i + 1);
    RunSplits(s, steps[..i + 1], i);
    assert steps[..i + 1][..i] == steps[..i] && steps[..i + 1][i..] == [steps[i]];
    var middle, gone := End(s, steps[..i]), End(s, steps[..i + 1]);
    LastStep(middle, steps[i]);
    RunKeepsInvariant(s, steps[..i]);
    RemovedIsAbsent(middle, steps[i], id);
    RunKeepsInvariant(s, steps[..i + 1]);
    HolderRun(s, steps[..i + 1], agent);
    HolderRun(gone, steps[i + 1..], agent);
    AddedSince(gone.platform, End(s, steps).platform, id);
  }

  lemma {:induction false} LastStep(s: System, step: Step)
    requires IsRun(s, [step])
    ensures Enabled(s, step) && End(s, [step]) == Apply(s, step)
  {
    assert [step][1..] == [];
  }

  lemma {:induction false} AddedSince(before: Platform, after: Platform, id: int)
    requires OldOrAdded(before, after) && Present(after, id) && !Present(before, id)
    ensures JobOf(after, id).serial >= before.adds
  {
    assert JobOf(after, id) in after.jobs;
  }

  /**
   Exactly when an agent finishes the job it was assigned: from any reachable state in which it holds a job of
   the table, through any steps of the others, the job that then has the ID was granted to it if and only if
   the ID was never removed in between.
   */
  lemma {:induction false} FinishesOwnJobExactlyWhenNotRemoved(before: seq<Step>, s: System, steps: seq<Step>,
                                                               agent: string, id: int)
    requires IsRun(Start, before) && s == End(Start, before)
    requires agent in s.holding && s.holding[agent].0 == id
    requires Present(s.platform, id) && JobOf(s.platform, id).serial == s.holding[agent].1
    requires IsRun(s, steps) && forall i | 0 <= i < |steps| :: !Drops(steps[i], agent)
    requires Present(End(s, steps).platform, id)
    ensures var e := End(s, steps);
            var n := JobOf(e.platform, id).serial;
            n in e.granted && e.granted[n] == agent <==> forall i | 0 <= i < |steps| :: !Removes(steps[i], id)
  {
    hide Apply, Enabled, JobOf, Removes, Drops;
    RunKeepsInvariant(Start, before);
    RunKeepsInvariant(s, steps);
    if i :| 0 <= i < |steps| && Removes(steps[i], id) {
      ReplacedIsNotGranted(s, steps, agent, id, i);
    } else {
      RunProgresses(s, steps, id);
      HolderRun(s, steps, agent);
    }
  }

  /**
   Finishing is not tied to assignment: an agent whose job was cancelled finishes the next job that gets the
   same ID, though nobody was ever assigned to it.
   */
  lemma {:induction false} StaleAgentFinishesNewJob() returns (steps: seq<Step>)
    ensures IsRun(Start, steps)
    ensures var s := End(Start, steps); s.platform.jobs == [Job(7, 1, Finished)] && 1 !in s.granted
  {
    var s;
    steps, s := JobIsCancelled();
    steps, s := Play(steps, s, TestAdds(7, 1));
    assert s.platform.jobs == [Job(7, 1, Pending)];
    steps, s := Play(steps, s, Completes("agent"));
  }

  lemma {:induction false} JobIsCancelled() returns (steps: seq<Step>, s: System)
    ensures IsRun(Start, steps) && s == End(Start, steps)
    ensures s.platform.jobs == [] && s.platform.poolId == 1 && s.platform.adds == 1
    ensures s.holding == map["agent" := (7, 0)] && s.granted == map[0 := "agent"]
  {
    steps, s := JobIsOffered();
    assert s.platform.agents[0].name == "agent" && Knows(s.platform.agents, "agent");
    steps, s := Play(steps, s, Attempts("agent", 7, true));
    assert s.platform.jobs == [Job(7, 0, InProgress)];
    steps, s := Play(steps, s, TestCancels(7));
  }

  lemma {:induction false} JobIsOffered() returns (steps: seq<Step>, s: System)
    ensures IsRun(Start, steps) && s == End(Start, steps)
    ensures s.platform.jobs == [Job(7, 0, Pending)] && s.platform.agents == [Agent("agent", 1)]
    ensures s.platform.poolId == 1 && s.platform.adds == 1 && s.holding == map[] && s.granted == map[]
  {
    steps, s := Play([], Start, TestCreatesPool(1));
    steps, s := Play(steps, s, Registers("agent"));
    assert s.platform.agents == [Agent("agent", 1)];
    steps, s := Play(steps, s, TestAdds(7, 1));
  }
}
