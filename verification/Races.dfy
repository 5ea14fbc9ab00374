/**
 What the lock of the test platform does not cover. Only the handlers of requests take it: the tests add and
 cancel jobs, and reset the platform, at any instant. So saving a job is two steps, finding its ID and storing
 at the position found, and the table may change in between. The tests' own calls come one after the other.
 */
module Races {
  import opened Outcomes
  import opened FakePlatform

  // The request that has the lock, once it is accepted: the copy of the job that it will store, with its new
  // state, and then the position at which its ID was found.
  datatype Handling =
    | Nobody
    | Fetched(agent: string, job: Job)
    | Located(agent: string, job: Job, index: Option<nat>)

  datatype State = State(system: System, handling: Handling)

  const Begin: State := State(Start, Nobody)

  datatype Move =
    | Test(step: Step)
    | Other(step: Step)
    | Fetch(step: Step)
    | LookUp
    | Store

  predicate Busy(h: Handling, agent: string) {
    !h.Nobody? && h.agent == agent
  }

  // Handlers wait for the lock, and an agent for the answer to its request; the tests wait for neither.
  predicate Possible(s: State, m: Move) {
    match m
    case Test(step) => step.TestAdds? || step.TestCancels? || step.TestResets? || step.TestCreatesPool?
    case Other(Abandons(agent)) => agent in s.system.holding && !Busy(s.handling, agent)
    case Other(step) => s.handling.Nobody? && (step.Registers? || step.Deregisters? || step.Lists?)
    case Fetch(step) => s.handling.Nobody? && (step.Attempts? || step.Completes?) && Enabled(s.system, step)
    case LookUp => s.handling.Fetched?
    case Store => s.handling.Located?
  }

  function Refused(s: System, step: Step): bool
    requires (step.Attempts? || step.Completes?) && Enabled(s, step)
  {
    if step.Attempts? then Assign(s.platform, step.id, step.agent, step.decodes).1 != Accepted
    else Finish(s.platform, s.holding[step.agent].0, step.agent).1 != Accepted
  }

  function Copy(s: System, step: Step): Job
    requires (step.Attempts? || step.Completes?) && Enabled(s, step) && !Refused(s, step)
  {
    if step.Attempts? then JobOf(s.platform, step.id).(state := InProgress)
    else JobOf(s.platform, s.holding[step.agent].0).(state := Finished)
  }

  function Stored(jobs: seq<Job>, job: Job, index: Option<nat>): seq<Job> {
    match index
    case None => jobs + [job]
    case Some(i) => if i < |jobs| then jobs[i := job] else jobs
  }

  // A position past the end of the table fails: then nothing is saved and nothing is logged.
  predicate Fails(jobs: seq<Job>, index: Option<nat>) {
    index.Some? && index.value >= |jobs|
  }

  function Answered(s: System, agent: string, job: Job, index: Option<nat>): System {
    var p := s.platform;
    var jobs := Stored(p.jobs, job, index);
    if job.state == Finished then
      var log := if Fails(p.jobs, index) then [] else [FinishJob(agent, job.id)];
      s.(platform := p.(jobs := jobs, requests := p.requests + log), holding := s.holding - {agent})
    else if Fails(p.jobs, index) then s
    else
      System(p.(jobs := jobs, requests := p.requests + [AssignJob(agent, job.id, job.serial)]),
             s.holding[agent := (job.id, job.serial)], s.granted[job.serial := agent])
  }

  function Do(s: State, m: Move): State
    requires Possible(s, m)
  {
    match m
    case Test(step) => s.(system := Apply(s.system, step))
    case Other(step) => s.(system := Apply(s.system, step))
    case Fetch(step) =>
      if Refused(s.system, step) then s.(system := Apply(s.system, step))
      else s.(handling := Fetched(step.agent, Copy(s.system, step)))
    case LookUp =>
      var i := JobIndex(s.system.platform.jobs, s.handling.job.id);
      s.(handling := Located(s.handling.agent, s.handling.job, if i < |s.system.platform.jobs| then Some(i) else None))
    case Store => State(Answered(s.system, s.handling.agent, s.handling.job, s.handling.index), Nobody)
  }

  ghost predicate IsHistory(s: State, moves: seq<Move>)
    decreases |moves|
  {
    moves == [] || (Possible(s, moves[0]) && IsHistory(Do(s, moves[0]), moves[1..]))
  }

  ghost function Last(s: State, moves: seq<Move>): State
    requires IsHistory(s, moves)
    decreases |moves|
  {
    if moves == [] then s else Last(Do(s, moves[0]), moves[1..])
  }

  ghost predicate UniqueIds(jobs: seq<Job>) {
    forall i, j | 0 <= i < j < |jobs| :: jobs[i].id != jobs[j].id
  }

  ghost predicate AlwaysUnique(s: State, moves: seq<Move>)
    requires IsHistory(s, moves)
    decreases |moves|
  {
    UniqueIds(s.system.platform.jobs) && (moves == [] || AlwaysUnique(Do(s, moves[0]), moves[1..]))
  }

  // Where the copy goes, its ID still is, or it is nowhere, or the store fails.
  predicate Lands(jobs: seq<Job>, id: int, index: Option<nat>) {
    var now := JobIndex(jobs, id);
    now == |jobs| || index == Some(now) || Fails(jobs, index)
  }

  ghost predicate StoresLand(s: State, moves: seq<Move>)
    requires IsHistory(s, moves)
    decreases |moves|
  {
    moves != [] ==>
      && (moves[0] == Store ==> Lands(s.system.platform.jobs, s.handling.job.id, s.handling.index))
      && StoresLand(Do(s, moves[0]), moves[1..])
  }

  predicate Removal(step: Step) {
    step.TestCancels? || step.TestResets?
  }

  // No job is cancelled, and the platform is not reset, while a request is handled.
  ghost predicate Undisturbed(s: State, moves: seq<Move>)
    requires IsHistory(s, moves)
    decreases |moves|
  {
    moves != [] ==>
      && (moves[0].Test? && Removal(moves[0].step) ==> s.handling.Nobody?)
      && Undisturbed(Do(s, moves[0]), moves[1..])
  }

  // Serial numbers tell jobs apart, and a job being assigned has not been assigned before.
  ghost predicate CopyFits(s: System, agent: string, job: Job) {
    && job.serial < s.platform.adds && job.state != Pending
    && (forall k | 0 <= k < |s.platform.jobs| && s.platform.jobs[k].serial == job.serial :: s.platform.jobs[k].id == job.id)
    && (job.state == InProgress ==> job.serial !in s.granted)
  }

  ghost predicate Sound(s: State) {
    && Invariant(s.system)
    && (!s.handling.Nobody? ==> CopyFits(s.system, s.handling.agent, s.handling.job))
  }

  lemma {:induction false} StoreKeepsUnique(jobs: seq<Job>, job: Job, index: Option<nat>)
    requires UniqueIds(jobs)
    ensures UniqueIds(Stored(jobs, job, index)) <==> Lands(jobs, job.id, index)
  {
    var now, stored := JobIndex(jobs, job.id), Stored(jobs, job, index);
    if now < |jobs| && index != Some(now) && !Fails(jobs, index) {
      var at := if index.Some? then index.value else |jobs|;
      assert stored[at].id == stored[now].id == job.id;
    }
  }

  lemma {:induction false} LandingKeepsDistinct(s: System, agent: string, job: Job, index: Option<nat>)
    requires JobsDistinct(s.platform.jobs, s.platform.adds) && CopyFits(s, agent, job) && Lands(s.platform.jobs, job.id, index)
    ensures JobsDistinct(Stored(s.platform.jobs, job, index), s.platform.adds)
  {
    StoreKeepsUnique(s.platform.jobs, job, index);
  }

  lemma {:induction false} LandingIsSound(s: System, agent: string, job: Job, index: Option<nat>)
    requires Invariant(s) && CopyFits(s, agent, job) && Lands(s.platform.jobs, job.id, index)
    ensures Invariant(Answered(s, agent, job, index))
  {
    LandingKeepsDistinct(s, agent, job, index);
    hide JobsDistinct, Lands;
  }

  lemma {:induction false} CopyStillFits(before: System, after: System, agent: string, job: Job)
    requires CopyFits(before, agent, job) && OldOrAdded(before.platform, after.platform) && after.granted == before.granted
    ensures CopyFits(after, agent, job)
  {
    forall k | 0 <= k < |after.platform.jobs| && after.platform.jobs[k].serial == job.serial
      ensures after.platform.jobs[k].id == job.id
    {
      assert after.platform.jobs[k] in after.platform.jobs;
    }
  }

  lemma {:induction false} FreshCopyFits(s: System, step: Step)
    requires Invariant(s) && (step.Attempts? || step.Completes?) && Enabled(s, step) && !Refused(s, step)
    ensures CopyFits(s, step.agent, Copy(s, step))
  {
    hide HoldersGranted, LogGranted;
  }

  lemma {:induction false} MoveIsSound(s: State, m: Move)
    requires Sound(s) && Possible(s, m)
    requires m == Store ==> Lands(s.system.platform.jobs, s.handling.job.id, s.handling.index)
    ensures Sound(Do(s, m))
  {
    hide Invariant, CopyFits, OldOrAdded, Save, Knows, JobIndex, Refused, Copy;
    match m {
      case Store => LandingIsSound(s.system, s.handling.agent, s.handling.job, s.handling.index);
      case LookUp =>
      case Fetch(step) =>
        if Refused(s.system, step) {
          StepKeepsInvariant(s.system, step);
        } else {
          FreshCopyFits(s.system, step);
        }
      case Test(step) => StepIsSound(s, step);
      case Other(step) => StepIsSound(s, step);
    }
  }

  lemma {:induction false} StepIsSound(s: State, step: Step)
    requires Sound(s) && Enabled(s.system, step) && !step.Attempts?
    ensures Sound(s.(system := Apply(s.system, step)))
  {
    hide Invariant, CopyFits, OldOrAdded, Save, Knows, JobIndex;
    StepKeepsInvariant(s.system, step);
    if !s.handling.Nobody? {
      StepOldOrAdded(s.system, step);
      CopyStillFits(s.system, Apply(s.system, step), s.handling.agent, s.handling.job);
    }
  }

  lemma {:induction false} SoundIsUnique(s: State)
    requires Sound(s)
    ensures UniqueIds(s.system.platform.jobs)
  {
  }

  lemma {:induction false} HistoryUnique(s: State, moves: seq<Move>)
    requires Sound(s) && IsHistory(s, moves)
    ensures AlwaysUnique(s, moves) <==> StoresLand(s, moves)
    ensures StoresLand(s, moves) ==> Sound(Last(s, moves))
    decreases |moves|
  {
    hide Sound, Do, UniqueIds, Lands;
    SoundIsUnique(s);
    if moves != [] {
      if moves[0] == Store && !Lands(s.system.platform.jobs, s.handling.job.id, s.handling.index) {
        LostStore(s);
      } else {
        MoveIsSound(s, moves[0]);
        HistoryUnique(Do(s, moves[0]), moves[1..]);
      }
    }
  }

  lemma {:induction false} LostStore(s: State)
    requires Sound(s) && Possible(s, Store) && !Lands(s.system.platform.jobs, s.handling.job.id, s.handling.index)
    ensures !UniqueIds(Do(s, Store).system.platform.jobs)
  {
    SoundIsUnique(s);
    hide Sound, UniqueIds, Lands;
    StoreKeepsUnique(s.system.platform.jobs, s.handling.job, s.handling.index);
  }

  /**
   However the agents and the tests interleave, the tests without the lock: job IDs are unique in every state if
   and only if every copy that is stored lands where its ID still is, or its ID is nowhere, or the store fails.
   Then no two agents hold the same job, and no job is assigned twice.
   */
  lemma {:induction false} IdsUniqueExactlyWhenStoresLand(moves: seq<Move>)
    requires IsHistory(Begin, moves)
    ensures AlwaysUnique(Begin, moves) <==> StoresLand(Begin, moves)
    ensures var s := Last(Begin, moves).system;
            StoresLand(Begin, moves) ==>
            && (forall a, b | a in s.holding && b in s.holding && a != b :: s.holding[a].1 != s.holding[b].1)
            && (forall i, j | 0 <= i < j < |s.platform.requests|
                              && s.platform.requests[i].AssignJob? && s.platform.requests[j].AssignJob? ::
                  s.platform.requests[i].serial != s.platform.requests[j].serial)
  {
    HistoryUnique(Begin, moves);
  }

  // The steps of a history when a saved request counts as one step, at its store.
  function Atomically(s: State, m: Move): seq<Step>
    requires Possible(s, m)
  {
    match m
    case Test(step) => [step]
    case Other(step) => [step]
    case Fetch(step) => if Refused(s.system, step) then [step] else []
    case LookUp => []
    case Store =>
      if s.handling.job.state == Finished then [Completes(s.handling.agent)]
      else [Attempts(s.handling.agent, s.handling.job.id, true)]
  }

  ghost function Trace(s: State, moves: seq<Move>): seq<Step>
    requires IsHistory(s, moves)
    decreases |moves|
  {
    if moves == [] then [] else Atomically(s, moves[0]) + Trace(Do(s, moves[0]), moves[1..])
  }

  // The request that is handled would still be accepted, with the same outcome.
  ghost predicate StillAccepted(s: System, agent: string, job: Job) {
    && Present(s.platform, job.id) && job == JobOf(s.platform, job.id).(state := job.state)
    && match job.state
       case Pending => false
       case InProgress => JobOf(s.platform, job.id).state == Pending && Knows(s.platform.agents, agent) && agent !in s.holding
       case Finished => agent in s.holding && s.holding[agent].0 == job.id
  }

  ghost predicate Ready(s: State) {
    && (!s.handling.Nobody? ==> StillAccepted(s.system, s.handling.agent, s.handling.job))
    && (s.handling.Located? ==> s.handling.index == Some(JobIndex(s.system.platform.jobs, s.handling.job.id)))
  }

  lemma {:induction false} StoreIsAtomic(s: State)
    requires Ready(s) && Possible(s, Store)
    ensures var step := Atomically(s, Store)[0];
            Enabled(s.system, step) && Apply(s.system, step) == Do(s, Store).system
  {
    hide Knows;
  }

  lemma {:induction false} AdditionKeepsReady(s: State, id: int, poolId: int)
    requires Ready(s)
    ensures Ready(s.(system := Apply(s.system, TestAdds(id, poolId))))
  {
    hide Knows;
    var p := s.system.platform;
    if !s.handling.Nobody? && !Present(p, id) {
      SaveKeepsOthers(p.jobs, Job(id, p.adds, Pending), s.handling.job.id);
    }
  }

  lemma {:induction false} OtherKeepsReady(s: State, m: Move)
    requires Ready(s) && Possible(s, m) && (m.Test? || m.Other?) && (m.Test? && Removal(m.step) ==> s.handling.Nobody?)
    ensures Ready(Do(s, m))
  {
    hide Knows, Save, JobIndex;
    if m.Test? && m.step.TestAdds? {
      AdditionKeepsReady(s, m.step.id, m.step.poolId);
    }
  }

  lemma {:induction false} FetchIsReady(s: State, m: Move)
    requires Ready(s) && Possible(s, m) && (m.Fetch? || m.LookUp?)
    ensures Ready(Do(s, m))
  {
    hide Save;
  }

  lemma {:induction false} MoveRefines(s: State, m: Move)
    requires Ready(s) && Possible(s, m) && (m.Test? && Removal(m.step) ==> s.handling.Nobody?)
    ensures Ready(Do(s, m))
    ensures m == Store ==> Lands(s.system.platform.jobs, s.handling.job.id, s.handling.index)
    ensures var steps, next := Atomically(s, m), Do(s, m).system;
            (steps == [] && next == s.system) || (|steps| == 1 && Enabled(s.system, steps[0]) && next == Apply(s.system, steps[0]))
  {
    if m == Store {
      StoreIsAtomic(s);
    } else if m.Test? || m.Other? {
      OtherKeepsReady(s, m);
    } else {
      FetchIsReady(s, m);
    }
    hide Apply, Ready, Refused, Copy, JobIndex, Answered;
  }

  /**
   While no job is cancelled and the platform is not reset as a request is handled, handling is as good as one
   step: the history does what its trace of steps does. Its stores land.
   */
  lemma {:induction false} UndisturbedIsAtomic(s: State, moves: seq<Move>)
    requires Ready(s) && IsHistory(s, moves) && Undisturbed(s, moves)
    ensures IsRun(s.system, Trace(s, moves)) && End(s.system, Trace(s, moves)) == Last(s, moves).system
    ensures Ready(Last(s, moves)) && StoresLand(s, moves)
    decreases |moves|
  {
    hide Ready, Possible, Do, Lands, Apply, Enabled, Atomically, Removal;
    if moves != [] {
      var first, rest := Atomically(s, moves[0]), Trace(Do(s, moves[0]), moves[1..]);
      MoveRefines(s, moves[0]);
      UndisturbedIsAtomic(Do(s, moves[0]), moves[1..]);
      if first == [] {
        assert first + rest == rest;
      } else {
        assert (first + rest)[1..] == rest;
      }
    }
  }

  predicate TestRemoves(m: Move, id: int) {
    m.Test? && Removes(m.step, id)
  }

  lemma {:induction false} TraceRemovesNothing(s: State, moves: seq<Move>, id: int)
    requires IsHistory(s, moves) && forall k | 0 <= k < |moves| :: !TestRemoves(moves[k], id)
    ensures forall k | 0 <= k < |Trace(s, moves)| :: !Removes(Trace(s, moves)[k], id)
    decreases |moves|
  {
    hide Do, Refused;
    if moves != [] {
      assert !TestRemoves(moves[0], id);
      TraceRemovesNothing(Do(s, moves[0]), moves[1..], id);
    }
  }

  lemma {:induction false} BeginIsReady()
    ensures Ready(Begin) && Invariant(Start) && Begin.system == Start
  {
  }

  /**
   So while no job is cancelled and the platform is not reset as a request is handled, a job never goes back to
   an earlier state while it is in the table, and at most one AssignJob is logged for it.
   */
  lemma {:induction false} UndisturbedAssignsOnce(before: seq<Move>, s: State, moves: seq<Move>, id: int)
    requires IsHistory(Begin, before) && Undisturbed(Begin, before) && s == Last(Begin, before)
    requires IsHistory(s, moves) && Undisturbed(s, moves) && Present(s.system.platform, id)
    requires forall k | 0 <= k < |moves| :: !TestRemoves(moves[k], id)
    ensures Progressed(s.system.platform, Last(s, moves).system.platform, id)
    ensures var since, log := |s.system.platform.requests|, Last(s, moves).system.platform.requests;
            forall i, j | since <= i < j < |log| && log[i].AssignJob? && log[j].AssignJob? :: log[i].id != id || log[j].id != id
  {
    BeginIsReady();
    hide *;
    UndisturbedIsAtomic(Begin, before);
    UndisturbedIsAtomic(s, moves);
    TraceRemovesNothing(s, moves, id);
    RunKeepsInvariant(Start, Trace(Begin, before));
    RunProgresses(s.system, Trace(s, moves), id);
    var since, log := |s.system.platform.requests|, Last(s, moves).system.platform.requests;
    forall i, j | since <= i < j < |log| && log[i].AssignJob? && log[j].AssignJob?
      ensures log[i].id != id || log[j].id != id
    {
      if log[i].id == id && log[j].id == id {
        AssignedAtMostOnce(Trace(Begin, before), s.system, Trace(s, moves), id, i, j);
      }
    }
  }

  lemma {:induction false} HistoryExtends(s: State, moves: seq<Move>, m: Move)
    requires IsHistory(s, moves) && Possible(Last(s, moves), m)
    ensures IsHistory(s, moves + [m]) && Last(s, moves + [m]) == Do(Last(s, moves), m)
    decreases |moves|
  {
    hide Do, Possible;
    if moves == [] {
      assert [] + [m] == [m] && [m][1..] == [];
    } else {
      HistoryExtends(Do(s, moves[0]), moves[1..], m);
      assert (moves + [m])[1..] == moves[1..] + [m];
    }
  }

  lemma {:induction false} Continue(moves: seq<Move>, s: State, m: Move) returns (moves': seq<Move>, s': State)
    requires IsHistory(Begin, moves) && s == Last(Begin, moves) && Possible(s, m)
    ensures IsHistory(Begin, moves') && s' == Last(Begin, moves') && s' == Do(s, m)
  {
    HistoryExtends(Begin, moves, m);
    moves', s' := moves + [m], Do(s, m);
  }

  lemma {:induction false} JobsAreOffered() returns (moves: seq<Move>, s: State)
    ensures IsHistory(Begin, moves) && s == Last(Begin, moves) && s.handling.Nobody?
    ensures s.system.platform.jobs == [Job(7, 0, Pending), Job(9, 1, Pending), Job(10, 2, Pending)]
    ensures s.system.platform.agents == [Agent("a", 1), Agent("b", 2)]
    ensures s.system.holding == map[] && s.system.granted == map[]
  {
    moves, s := AgentsAreRegistered();
    moves, s := Continue(moves, s, Test(TestAdds(7, 1)));
    moves, s := Continue(moves, s, Test(TestAdds(9, 1)));
    assert s.system.platform.jobs == [Job(7, 0, Pending), Job(9, 1, Pending)];
    moves, s := Continue(moves, s, Test(TestAdds(10, 1)));
  }

  lemma {:induction false} AgentsAreRegistered() returns (moves: seq<Move>, s: State)
    ensures IsHistory(Begin, moves) && s == Last(Begin, moves) && s.handling.Nobody?
    ensures s.system.platform == Platform([], [Agent("a", 1), Agent("b", 2)], [CreateAgent("a"), CreateAgent("b")], 1, 0)
    ensures s.system.holding == map[] && s.system.granted == map[]
  {
    moves, s := Continue([], Begin, Test(TestCreatesPool(1)));
    assert !Knows(s.system.platform.agents, "a");
    moves, s := Continue(moves, s, Other(Registers("a")));
    assert s.system.platform.agents == [Agent("a", 1)] && !Knows(s.system.platform.agents, "b");
    hide Knows;
    moves, s := Continue(moves, s, Other(Registers("b")));
  }

  function IdsOf(jobs: seq<Job>): (ids: seq<int>)
    ensures |ids| == |jobs| && forall k | 0 <= k < |jobs| :: ids[k] == jobs[k].id
  {
    seq(|jobs|, k requires 0 <= k < |jobs| => jobs[k].id)
  }

  // One agent gets a job: its request is handled with no test call in between.
  lemma {:induction false} Assigned(moves: seq<Move>, s: State, agent: string, id: int)
    returns (moves': seq<Move>, s': State)
    requires IsHistory(Begin, moves) && s == Last(Begin, moves) && s.handling.Nobody?
    requires agent !in s.system.holding && Knows(s.system.platform.agents, agent)
    requires Present(s.system.platform, id) && JobOf(s.system.platform, id).state == Pending
    ensures IsHistory(Begin, moves') && s' == Last(Begin, moves') && s'.handling.Nobody?
    ensures s'.system.holding == s.system.holding[agent := (id, JobOf(s.system.platform, id).serial)]
    ensures IdsOf(s'.system.platform.jobs) == IdsOf(s.system.platform.jobs)
  {
    hide Knows, JobIndex;
    moves', s' := Continue(moves, s, Fetch(Attempts(agent, id, true)));
    moves', s' := Continue(moves', s', LookUp);
    moves', s' := Continue(moves', s', Store);
  }

  lemma {:induction false} JobIsLocated() returns (moves: seq<Move>, s: State)
    ensures IsHistory(Begin, moves) && s == Last(Begin, moves)
    ensures s.handling == Located("a", Job(9, 1, InProgress), Some(1))
    ensures s.system.platform.jobs == [Job(7, 0, Pending), Job(9, 1, Pending), Job(10, 2, Pending)]
    ensures s.system.platform.agents == [Agent("a", 1), Agent("b", 2)] && s.system.holding == map[]
  {
    moves, s := JobsAreOffered();
    FoundAt(s.system.platform.jobs, 9, 1);
    assert s.system.platform.agents[0].name == "a" && Knows(s.system.platform.agents, "a");
    hide JobIndex, Knows;
    moves, s := Continue(moves, s, Fetch(Attempts("a", 9, true)));
    moves, s := Continue(moves, s, LookUp);
  }

  // A job is cancelled between look-up and store: the copy replaces the next job, and its ID is there twice.
  lemma {:induction false} CancelledInBetween() returns (moves: seq<Move>, s: State)
    ensures IsHistory(Begin, moves) && s == Last(Begin, moves) && s.handling.Nobody?
    ensures s.system.platform.jobs == [Job(9, 1, Pending), Job(9, 1, InProgress)]
    ensures s.system.platform.agents == [Agent("a", 1), Agent("b", 2)]
    ensures s.system.holding == map["a" := (9, 1)]
  {
    moves, s := JobIsLocated();
    FoundAt(s.system.platform.jobs, 7, 0);
    hide JobIndex;
    moves, s := Continue(moves, s, Test(TestCancels(7)));
    assert s.system.platform.jobs == [Job(9, 1, Pending), Job(10, 2, Pending)];
    moves, s := Continue(moves, s, Store);
  }

  /** Otherwise two agents can hold one job, and another job can be lost: job 10 was never cancelled. */
  lemma {:induction false} CancellationCanDoubleAJob() returns (moves: seq<Move>)
    ensures IsHistory(Begin, moves) && !Undisturbed(Begin, moves)
    ensures var s := Last(Begin, moves).system; s.holding == map["a" := (9, 1), "b" := (9, 1)] && 10 !in IdsOf(s.platform.jobs)
  {
    var s;
    moves, s := CancelledInBetween();
    assert s.system.platform.agents[1].name == "b" && Knows(s.system.platform.agents, "b");
    FoundAt(s.system.platform.jobs, 9, 0);
    hide JobIndex, Knows;
    moves, s := Assigned(moves, s, "b", 9);
    HeldTwice(moves);
  }

  lemma {:induction false} HeldTwice(moves: seq<Move>)
    requires IsHistory(Begin, moves)
    requires var h := Last(Begin, moves).system.holding; "a" in h && "b" in h && h["a"].1 == h["b"].1
    ensures !Undisturbed(Begin, moves)
  {
    if Undisturbed(Begin, moves) {
      UndisturbedIsAtomic(Begin, moves);
      hide *;
      NoJobIsHeldTwice(Trace(Begin, moves));
    }
  }
}
