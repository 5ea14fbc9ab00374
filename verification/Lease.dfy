/**
 The lease protocol on cache volumes, as a machine whose steps are single calls to the Kubernetes API.

 A claim (PVC) is promised to a pod by an annotation, mounted by that pod, and released once the pod is
 terminated or has been missing for a while. The controller is single-threaded, but every list it works on
 is a cached one: it may see any past version of a claim, and any set of pods that was current at some
 instant at most `lag` before it acts on the absence of a pod. Updates are compare-and-swap on the object's
 version. Pods start, end and vanish between any two calls, the clock advances, and the controller may
 crash and lose its memory at any point.
 */
module Lease {
  import opened Clock
  import opened Outcomes
  import opened Spec
  import Disappeared

  // A pod, as far as the lease is concerned: its phase and the claims it mounts.
  datatype Holder = Holder(phase: Phase, claims: set<string>)
  datatype Pvc = Pvc(version: nat, volume: string, promised: Option<string>)

  type Pods = map<string, Holder>
  type Pvcs = map<string, Pvc>

  // One entry of the pod history: the pods as they were from `since` on, until the next entry.
  datatype Snapshot = Snapshot(since: Time, pods: Pods)

  // What the controller is in the middle of.
  datatype Activity =
    | Idle
    | Creating(pod: string, claims: set<string>)
    | Releasing(claim: string, seen: Pvc)

  datatype State = State(
    now: Time,
    podLog: seq<Snapshot>,
    pvcLog: seq<Pvcs>,
    names: set<string>,
    misses: Disappeared.Misses,
    activity: Activity)
  {
    function Pods(): Pods
      requires |podLog| > 0
    {
      podLog[|podLog| - 1].pods
    }

    function Pvcs(): Pvcs
      requires |pvcLog| > 0
    {
      pvcLog[|pvcLog| - 1]
    }

    function WithPods(pods: Pods): State {
      this.(podLog := podLog + [Snapshot(now, pods)])
    }

    function WithPvcs(pvcs: Pvcs): State {
      this.(pvcLog := pvcLog + [pvcs])
    }
  }

  const Empty: State := State(0, [Snapshot(0, map[])], [map[]], {}, map[], Idle)

  // How an API call ends: it takes effect and says so, it takes effect but reports an error, or it fails.
  datatype Reply = Done | LostReply | Rejected

  datatype Step =
    | Begin(pod: string)
    | Take(claim: string, view: nat, reply: Reply)
    | Make(claim: string, volume: string, reply: Reply)
    | Launch(reply: Reply)
    | Check(claim: string, view: nat, podView: nat)
    | Release(reply: Reply)
    | GiveUp
    | Crash
    | Tick(elapsed: Time)
    | Advance(pod: string, phase: Phase)
    | Vanish(pod: string)
    | Touch(claim: string)

  predicate Enabled(s: State, step: Step, lag: Time) {
    && |s.podLog| > 0
    && |s.pvcLog| > 0
    && match step
       case Begin(pod) => s.activity.Idle? && pod !in s.names
       case Take(claim, view, _) =>
         && s.activity.Creating?
         && view < |s.pvcLog| && claim in s.pvcLog[view] && claim in s.Pvcs()
         && s.pvcLog[view][claim].promised.None?
       case Make(claim, _, _) => s.activity.Creating? && claim !in s.Pvcs()
       case Launch(_) => s.activity.Creating?
       case Check(claim, view, podView) =>
         && s.activity.Idle?
         && view < |s.pvcLog| && claim in s.pvcLog[view]
         && s.pvcLog[view][claim].promised.Some?
         && podView < |s.podLog|
         && (s.pvcLog[view][claim].promised.value in s.podLog[podView].pods
             || podView == |s.podLog| - 1 || s.now - s.podLog[podView + 1].since <= lag)
       case Release(_) => s.activity.Releasing? && s.activity.claim in s.Pvcs()
       case GiveUp => s.activity.Creating?
       case Crash => true
       case Tick(elapsed) => elapsed >= 0
       case Advance(pod, phase) => pod in s.Pods() && !Terminated(s.Pods()[pod].phase)
       case Vanish(pod) => pod in s.Pods()
       case Touch(claim) => claim in s.Pvcs()
  }

  // Compare-and-swap of the promise of a claim, against the version the caller saw.
  function Swap(s: State, claim: string, seen: Pvc, promised: Option<string>, reply: Reply): (State, bool)
    requires |s.pvcLog| > 0 && claim in s.Pvcs()
  {
    var current := s.Pvcs()[claim];
    if reply == Rejected || current.version != seen.version then
      (s, false)
    else
      (s.WithPvcs(s.Pvcs()[claim := seen.(version := seen.version + 1, promised := promised)]), reply == Done)
  }

  function Apply(s: State, step: Step, lag: Time): State
    requires Enabled(s, step, lag)
  {
    match step
    case Begin(pod) => s.(names := s.names + {pod}, activity := Creating(pod, {}))
    case Take(claim, view, reply) =>
      var (s', ok) := Swap(s, claim, s.pvcLog[view][claim], Some(s.activity.pod), reply);
      s'.(activity := if ok then Creating(s.activity.pod, s.activity.claims + {claim}) else Idle)
    case Make(claim, volume, reply) =>
      var s' := if reply == Rejected then s
                else s.WithPvcs(s.Pvcs()[claim := Pvc(0, volume, Some(s.activity.pod))]);
      s'.(activity := if reply == Done then Creating(s.activity.pod, s.activity.claims + {claim}) else Idle)
    case Launch(reply) =>
      var s' := if reply == Rejected then s
                else s.WithPods(s.Pods()[s.activity.pod := Holder(Pending, s.activity.claims)]);
      s'.(activity := Idle)
    case Check(claim, view, podView) =>
      var seen := s.pvcLog[view][claim];
      var pod := seen.promised.value;
      var listed := s.podLog[podView].pods;
      if pod in listed then
        if Terminated(listed[pod].phase) then s.(activity := Releasing(claim, seen)) else s
      else
        var look := Disappeared.Look(pod, s.now, s.now, s.now);
        s.(misses := Disappeared.After(s.misses, look),
           activity := if Disappeared.Verdict(s.misses, look) then Releasing(claim, seen) else Idle)
    case Release(reply) =>
      Swap(s, s.activity.claim, s.activity.seen, None, reply).0.(activity := Idle)
    case GiveUp => s.(activity := Idle)
    case Crash => s.(misses := map[], activity := Idle)
    case Tick(elapsed) => s.(now := s.now + elapsed)
    case Advance(pod, phase) => s.WithPods(s.Pods()[pod := s.Pods()[pod].(phase := phase)])
    case Vanish(pod) => s.WithPods(s.Pods() - {pod})
    case Touch(claim) =>
      var pvc := s.Pvcs()[claim];
      s.WithPvcs(s.Pvcs()[claim := pvc.(version := pvc.version + 1)])
  }

  /** What is not up to the operator may happen at any time: crashes, the clock, the ends of pods, and other writers. */
  lemma {:induction false} OutsideIsFree(s: State, pod: string, phase: Phase, claim: string, elapsed: Time, lag: Time)
    requires |s.podLog| > 0 && |s.pvcLog| > 0
    ensures Enabled(s, Crash, lag) && Apply(s, Crash, lag) == s.(misses := map[], activity := Idle)
    ensures elapsed >= 0 ==> Enabled(s, Tick(elapsed), lag) && Apply(s, Tick(elapsed), lag).now == s.now + elapsed
    ensures pod in s.Pods() ==> Enabled(s, Vanish(pod), lag) && Apply(s, Vanish(pod), lag).Pods() == s.Pods() - {pod}
    ensures pod in s.Pods() && s.Pods()[pod].phase != Succeeded && s.Pods()[pod].phase != Failed ==>
              && Enabled(s, Advance(pod, phase), lag)
              && Apply(s, Advance(pod, phase), lag).Pods() == s.Pods()[pod := Holder(phase, s.Pods()[pod].claims)]
    ensures claim in s.Pvcs() ==>
              && Enabled(s, Touch(claim), lag)
              && claim in Apply(s, Touch(claim), lag).Pvcs()
              && Apply(s, Touch(claim), lag).Pvcs()[claim].version > s.Pvcs()[claim].version
  {
  }

  /** A call whose reply is lost has taken effect all the same, and the operator does not know; a rejected one has none. */
  lemma {:induction false} LostRepliesTakeEffect(s: State, step: Step, lag: Time)
    requires Enabled(s, step, lag)
    ensures step.Launch? && step.reply == LostReply ==>
              && s.activity.pod in Apply(s, step, lag).Pods()
              && Apply(s, step, lag).Pods()[s.activity.pod] == Holder(Pending, s.activity.claims)
    ensures step.Make? && step.reply == LostReply ==>
              && step.claim in Apply(s, step, lag).Pvcs()
              && Apply(s, step, lag).Pvcs()[step.claim] == Pvc(0, step.volume, Some(s.activity.pod))
    ensures step.Take? && step.reply == LostReply && s.Pvcs()[step.claim] == s.pvcLog[step.view][step.claim] ==>
              Apply(s, step, lag).Pvcs()[step.claim].promised == Some(s.activity.pod)
    ensures step.Release? && step.reply == LostReply && s.Pvcs()[s.activity.claim] == s.activity.seen ==>
              Apply(s, step, lag).Pvcs()[s.activity.claim].promised == None
    ensures (step.Launch? || step.Make? || step.Take? || step.Release?) && step.reply != Done ==> Apply(s, step, lag).activity == Idle
    ensures (step.Launch? || step.Make? || step.Take? || step.Release?) && step.reply == Rejected ==>
              Apply(s, step, lag).Pods() == s.Pods() && Apply(s, step, lag).Pvcs() == s.Pvcs()
  {
  }

  ghost predicate IsRun(s: State, steps: seq<Step>, lag: Time)
    decreases |steps|
  {
    steps == [] || (Enabled(s, steps[0], lag) && IsRun(Apply(s, steps[0], lag), steps[1..], lag))
  }

  ghost function End(s: State, steps: seq<Step>, lag: Time): State
    requires IsRun(s, steps, lag)
    decreases |steps|
  {
    if steps == [] then s else End(Apply(s, steps[0], lag), steps[1..], lag)
  }

  ghost predicate Dead(pods: Pods, pod: string) {
    pod in pods ==> Terminated(pods[pod].phase)
  }

  ghost predicate Held(pvcs: Pvcs, claims: set<string>, pod: string) {
    forall c | c in claims :: c in pvcs && pvcs[c].promised == Some(pod)
  }

  /** Every claim a live pod mounts is promised to that very pod. */
  ghost predicate Exclusive(pods: Pods, pvcs: Pvcs) {
    forall p | p in pods && !Terminated(pods[p].phase) :: Held(pvcs, pods[p].claims, p)
  }

  // The instant until which snapshot i stayed current lies after t.
  predicate CurrentAfter(podLog: seq<Snapshot>, i: nat, t: Time)
    requires i < |podLog|
  {
    i == |podLog| - 1 || podLog[i + 1].since > t
  }

  // A pod that exists now cannot be absent from a snapshot that was current after it was first missed.
  ghost predicate SeenSince(podLog: seq<Snapshot>, pod: string, missed: Time)
    requires |podLog| > 0
  {
    pod in podLog[|podLog| - 1].pods ==>
      forall i | 0 <= i < |podLog| && CurrentAfter(podLog, i, missed) :: pod in podLog[i].pods
  }

  ghost predicate PodsConsistent(podLog: seq<Snapshot>, now: Time, names: set<string>, misses: Disappeared.Misses) {
    && |podLog| > 0
    && (forall i | 0 <= i < |podLog| :: podLog[i].since <= now && podLog[i].pods.Keys <= names)
    && (forall i, p | 0 <= i < |podLog| && p in podLog[i].pods && Terminated(podLog[i].pods[p].phase) ::
          Dead(podLog[|podLog| - 1].pods, p))
    && (forall p | p in misses :: p in names && misses[p] <= now && SeenSince(podLog, p, misses[p]))
  }

  ghost predicate Precedes(older: Pvcs, newer: Pvcs) {
    forall c | c in older ::
      && c in newer && older[c].version <= newer[c].version
      && (older[c].version == newer[c].version ==> older[c] == newer[c])
  }

  ghost predicate Promisees(pvcs: Pvcs, names: set<string>) {
    forall c | c in pvcs && pvcs[c].promised.Some? :: pvcs[c].promised.value in names
  }

  ghost predicate PvcsConsistent(pvcLog: seq<Pvcs>, names: set<string>) {
    && |pvcLog| > 0
    && forall i | 0 <= i < |pvcLog| :: Promisees(pvcLog[i], names) && Precedes(pvcLog[i], pvcLog[|pvcLog| - 1])
  }

  ghost predicate ActivityHonest(s: State)
    requires |s.podLog| > 0 && |s.pvcLog| > 0
  {
    match s.activity
    case Idle => true
    case Creating(pod, claims) =>
      && pod in s.names && pod !in s.misses
      && (forall i | 0 <= i < |s.podLog| :: pod !in s.podLog[i].pods)
      && Held(s.Pvcs(), claims, pod)
    case Releasing(claim, seen) =>
      && seen.promised.Some? && seen.promised.value in s.names && Dead(s.Pods(), seen.promised.value)
      && Precedes(map[claim := seen], s.Pvcs())
  }

  ghost predicate Invariant(s: State) {
    && PodsConsistent(s.podLog, s.now, s.names, s.misses)
    && PvcsConsistent(s.pvcLog, s.names)
    && ActivityHonest(s)
    && Exclusive(s.Pods(), s.Pvcs())
  }

  // Appending a later version of the claims to their history.
  lemma {:induction false} AppendPvcs(pvcLog: seq<Pvcs>, next: Pvcs, names: set<string>)
    requires PvcsConsistent(pvcLog, names)
    requires Precedes(pvcLog[|pvcLog| - 1], next) && Promisees(next, names)
    ensures PvcsConsistent(pvcLog + [next], names)
  {
    forall i | 0 <= i < |pvcLog| ensures Precedes(pvcLog[i], next) {
      assert Precedes(pvcLog[i], pvcLog[|pvcLog| - 1]);
    }
  }

  // A claim may be rewritten when nobody alive relies on its current promise.
  ghost predicate Free(pods: Pods, pvcs: Pvcs, claim: string) {
    claim in pvcs && pvcs[claim].promised.Some? ==> Dead(pods, pvcs[claim].promised.value)
  }

  lemma {:induction false} RewriteKeepsExclusive(pods: Pods, pvcs: Pvcs, claim: string, pvc: Pvc)
    requires Exclusive(pods, pvcs)
    requires Free(pods, pvcs, claim) || pvcs[claim].promised == pvc.promised
    ensures Exclusive(pods, pvcs[claim := pvc])
  {
    forall p | p in pods && !Terminated(pods[p].phase) ensures Held(pvcs[claim := pvc], pods[p].claims, p) {
      assert Held(pvcs, pods[p].claims, p);
    }
  }

  lemma {:induction false} RewriteKeepsConsistent(pvcLog: seq<Pvcs>, claim: string, pvc: Pvc, names: set<string>)
    requires PvcsConsistent(pvcLog, names)
    requires pvc.promised.Some? ==> pvc.promised.value in names
    requires claim in pvcLog[|pvcLog| - 1] ==> pvcLog[|pvcLog| - 1][claim].version < pvc.version
    ensures PvcsConsistent(pvcLog + [pvcLog[|pvcLog| - 1][claim := pvc]], names)
  {
    var current := pvcLog[|pvcLog| - 1];
    assert Promisees(current, names);
    AppendPvcs(pvcLog, current[claim := pvc], names);
  }

  lemma {:induction false} SwapKeepsInvariant(s: State, claim: string, seen: Pvc, promised: Option<string>, reply: Reply)
    requires Invariant(s) && claim in s.Pvcs() && Precedes(map[claim := seen], s.Pvcs())
    requires promised.Some? ==> promised.value in s.names
    requires seen.promised.Some? ==> Dead(s.Pods(), seen.promised.value)
    ensures var s' := Swap(s, claim, seen, promised, reply).0;
            Invariant(s'.(activity := Idle))
  {
    hide PvcsConsistent, PodsConsistent, Exclusive, Precedes;
    LogsNotEmpty(s);
    if reply != Rejected && s.Pvcs()[claim].version == seen.version {
      SeenIsCurrent(s.Pvcs(), claim, seen);
      var next := seen.(version := seen.version + 1, promised := promised);
      RewriteKeepsConsistent(s.pvcLog, claim, next, s.names);
      RewriteKeepsExclusive(s.Pods(), s.Pvcs(), claim, next);
    }
  }

  lemma {:induction false} LogsNotEmpty(s: State)
    requires Invariant(s)
    ensures |s.podLog| > 0 && |s.pvcLog| > 0
  {
  }

  lemma {:induction false} SeenIsCurrent(pvcs: Pvcs, claim: string, seen: Pvc)
    requires claim in pvcs && Precedes(map[claim := seen], pvcs) && pvcs[claim].version == seen.version
    ensures pvcs[claim] == seen
  {
    assert (map[claim := seen])[claim] == pvcs[claim];
  }

  // A promise won while creating a pod adds to the claims held for it.
  lemma {:induction false} PromiseAddsHeld(pvcs: Pvcs, claims: set<string>, pod: string, claim: string, pvc: Pvc)
    requires Held(pvcs, claims, pod) && pvc.promised == Some(pod)
    ensures Held(pvcs[claim := pvc], claims + {claim}, pod)
  {
  }

  // A pod missing from a recent enough list after being missed for GRACE does not exist any more.
  lemma {:induction false} GoneIsDead(s: State, pod: string, view: nat, lag: Time)
    requires Invariant(s) && lag <= Disappeared.GRACE && view < |s.podLog|
    requires pod in s.misses && s.now - s.misses[pod] > Disappeared.GRACE
    requires pod !in s.podLog[view].pods
    requires view == |s.podLog| - 1 || s.now - s.podLog[view + 1].since <= lag
    ensures pod !in s.Pods()
  {
    assert CurrentAfter(s.podLog, view, s.misses[pod]);
    assert SeenSince(s.podLog, pod, s.misses[pod]);
  }

  lemma {:induction false} NewMissIsLate(podLog: seq<Snapshot>, pod: string, now: Time)
    requires |podLog| > 0 && forall i | 0 <= i < |podLog| :: podLog[i].since <= now
    ensures SeenSince(podLog, pod, now)
  {
  }

  // Noting a missing pod and forgetting old entries keeps the memory of missing pods right.
  lemma {:induction false} NoteKeepsConsistent(s: State, pod: string)
    requires PodsConsistent(s.podLog, s.now, s.names, s.misses) && pod in s.names
    ensures PodsConsistent(s.podLog, s.now, s.names, Disappeared.Note(s.misses, pod, s.now))
    ensures PodsConsistent(s.podLog, s.now, s.names, Disappeared.Sweep(Disappeared.Note(s.misses, pod, s.now), s.now))
  {
    NewMissIsLate(s.podLog, pod, s.now);
  }

  lemma {:induction false} ListedIsDead(s: State, pod: string, podView: nat)
    requires PodsConsistent(s.podLog, s.now, s.names, s.misses) && podView < |s.podLog|
    requires pod in s.podLog[podView].pods && Terminated(s.podLog[podView].pods[pod].phase)
    ensures Dead(s.Pods(), pod)
  {
  }

  lemma {:induction false} SeenPrecedes(s: State, view: nat, claim: string)
    requires PvcsConsistent(s.pvcLog, s.names) && view < |s.pvcLog| && claim in s.pvcLog[view]
    ensures Precedes(map[claim := s.pvcLog[view][claim]], s.Pvcs())
    ensures var promised := s.pvcLog[view][claim].promised; promised.Some? ==> promised.value in s.names
  {
    assert Precedes(s.pvcLog[view], s.Pvcs()) && Promisees(s.pvcLog[view], s.names);
  }

  lemma {:induction false} CheckKeepsInvariant(s: State, step: Step, lag: Time)
    requires Invariant(s) && step.Check? && Enabled(s, step, lag) && lag <= Disappeared.GRACE
    ensures Invariant(Apply(s, step, lag))
  {
    var Check(claim, view, podView) := step;
    var pod := s.pvcLog[view][claim].promised.value;
    SeenPrecedes(s, view, claim);
    if pod !in s.podLog[podView].pods {
      var noted := Disappeared.Note(s.misses, pod, s.now);
      NoteKeepsConsistent(s, pod);
      if s.now - noted[pod] > Disappeared.GRACE {
        GoneIsDead(s, pod, podView, lag);
      }
    } else if Terminated(s.podLog[podView].pods[pod].phase) {
      ListedIsDead(s, pod, podView);
    }
    hide PodsConsistent, PvcsConsistent, Exclusive, Precedes;
  }

  lemma {:induction false} TakeKeepsInvariant(s: State, step: Step, lag: Time)
    requires Invariant(s) && Enabled(s, step, lag) && step.Take?
    ensures Invariant(Apply(s, step, lag))
  {
    var Take(claim, view, reply) := step;
    assert Precedes(s.pvcLog[view], s.Pvcs());
    var seen := s.pvcLog[view][claim];
    SwapKeepsInvariant(s, claim, seen, Some(s.activity.pod), reply);
    PromiseAddsHeld(s.Pvcs(), s.activity.claims, s.activity.pod, claim,
                    seen.(version := seen.version + 1, promised := Some(s.activity.pod)));
  }

  lemma {:induction false} MakeKeepsInvariant(s: State, step: Step, lag: Time)
    requires Invariant(s) && Enabled(s, step, lag) && step.Make?
    ensures Invariant(Apply(s, step, lag))
  {
    var Make(claim, volume, reply) := step;
    var pvc := Pvc(0, volume, Some(s.activity.pod));
    RewriteKeepsConsistent(s.pvcLog, claim, pvc, s.names);
    RewriteKeepsExclusive(s.Pods(), s.Pvcs(), claim, pvc);
    PromiseAddsHeld(s.Pvcs(), s.activity.claims, s.activity.pod, claim, pvc);
  }

  lemma {:induction false} ReleaseKeepsInvariant(s: State, step: Step, lag: Time)
    requires Invariant(s) && Enabled(s, step, lag) && step.Release?
    ensures Invariant(Apply(s, step, lag))
  {
    SwapKeepsInvariant(s, s.activity.claim, s.activity.seen, None, step.reply);
  }

  lemma {:induction false} TouchKeepsInvariant(s: State, step: Step, lag: Time)
    requires Invariant(s) && Enabled(s, step, lag) && step.Touch?
    ensures Invariant(Apply(s, step, lag))
  {
    var pvc := s.Pvcs()[step.claim];
    var next := pvc.(version := pvc.version + 1);
    assert Promisees(s.Pvcs(), s.names);
    RewriteKeepsConsistent(s.pvcLog, step.claim, next, s.names);
    RewriteKeepsExclusive(s.Pods(), s.Pvcs(), step.claim, next);
  }

  // Appending the pods after a step to their history.
  lemma {:induction false} AppendPods(podLog: seq<Snapshot>, now: Time, names: set<string>, misses: Disappeared.Misses,
                                      pods: Pods)
    requires PodsConsistent(podLog, now, names, misses) && pods.Keys <= names
    requires forall p | Dead(podLog[|podLog| - 1].pods, p) && p in podLog[|podLog| - 1].pods :: Dead(pods, p)
    requires forall p | p in pods && p in misses :: p in podLog[|podLog| - 1].pods
    requires forall i, p | 0 <= i < |podLog| && p in podLog[i].pods && p in pods :: p in podLog[|podLog| - 1].pods
    ensures PodsConsistent(podLog + [Snapshot(now, pods)], now, names, misses)
  {
    var log := podLog + [Snapshot(now, pods)];
    var n := |podLog|;
    forall i, p | 0 <= i < |log| && p in log[i].pods && Terminated(log[i].pods[p].phase) ensures Dead(pods, p) {
      if i < n {
        assert p in podLog[i].pods && Dead(podLog[n - 1].pods, p);
      }
    }
    forall p | p in misses ensures SeenSince(log, p, misses[p]) {
      assert SeenSince(podLog, p, misses[p]);
      forall i | p in pods && 0 <= i < |log| && CurrentAfter(log, i, misses[p]) ensures p in log[i].pods {
        if i < n - 1 {
          assert log[i + 1] == podLog[i + 1] && CurrentAfter(podLog, i, misses[p]);
        }
      }
    }
  }

  lemma {:induction false} LaunchKeepsInvariant(s: State, reply: Reply, lag: Time)
    requires Invariant(s) && Enabled(s, Launch(reply), lag)
    ensures Invariant(Apply(s, Launch(reply), lag))
  {
    hide PvcsConsistent, Precedes, Held;
    if reply != Rejected {
      AppendPods(s.podLog, s.now, s.names, s.misses, s.Pods()[s.activity.pod := Holder(Pending, s.activity.claims)]);
    }
  }

  lemma {:induction false} AdvanceKeepsInvariant(s: State, pod: string, phase: Phase, lag: Time)
    requires Invariant(s) && Enabled(s, Advance(pod, phase), lag)
    ensures Invariant(Apply(s, Advance(pod, phase), lag))
  {
    hide PvcsConsistent, Precedes, Held;
    AppendPods(s.podLog, s.now, s.names, s.misses, s.Pods()[pod := s.Pods()[pod].(phase := phase)]);
  }

  lemma {:induction false} VanishKeepsInvariant(s: State, pod: string, lag: Time)
    requires Invariant(s) && Enabled(s, Vanish(pod), lag)
    ensures Invariant(Apply(s, Vanish(pod), lag))
  {
    hide PvcsConsistent, Precedes, Held;
    AppendPods(s.podLog, s.now, s.names, s.misses, s.Pods() - {pod});
  }

  lemma {:induction false} OtherStepKeepsInvariant(s: State, step: Step, lag: Time)
    requires Invariant(s) && Enabled(s, step, lag)
    requires step.Begin? || step.GiveUp? || step.Crash? || step.Tick?
    ensures Invariant(Apply(s, step, lag))
  {
  }

  lemma {:induction false} RunKeepsInvariant(s: State, steps: seq<Step>, lag: Time)
    requires Invariant(s) && IsRun(s, steps, lag) && lag <= Disappeared.GRACE
    ensures Invariant(End(s, steps, lag))
    decreases |steps|
  {
    if steps != [] {
      var step := steps[0];
      match step {
        case Check(_, _, _) => CheckKeepsInvariant(s, step, lag);
        case Take(_, _, _) => TakeKeepsInvariant(s, step, lag);
        case Make(_, _, _) => MakeKeepsInvariant(s, step, lag);
        case Release(_) => ReleaseKeepsInvariant(s, step, lag);
        case Touch(_) => TouchKeepsInvariant(s, step, lag);
        case Launch(reply) => LaunchKeepsInvariant(s, reply, lag);
        case Advance(pod, phase) => AdvanceKeepsInvariant(s, pod, phase, lag);
        case Vanish(pod) => VanishKeepsInvariant(s, pod, lag);
        case Begin(_) | GiveUp | Crash | Tick(_) => OtherStepKeepsInvariant(s, step, lag);
      }
      RunKeepsInvariant(Apply(s, step, lag), steps[1..], lag);
    }
  }

  lemma {:induction false} RunExtends(s: State, steps: seq<Step>, step: Step, lag: Time)
    requires IsRun(s, steps, lag) && Enabled(End(s, steps, lag), step, lag)
    ensures IsRun(s, steps + [step], lag)
    ensures End(s, steps + [step], lag) == Apply(End(s, steps, lag), step, lag)
    decreases |steps|
  {
    if steps == [] {
      assert [] + [step] == [step] && [step][1..] == [];
    } else {
      RunExtends(Apply(s, steps[0], lag), steps[1..], step, lag);
      assert (steps + [step])[1..] == steps[1..] + [step];
    }
  }

  ghost predicate NoSharing(pods: Pods) {
    forall p, q | p in pods && q in pods && p != q && !Terminated(pods[p].phase) && !Terminated(pods[q].phase) ::
      pods[p].claims !! pods[q].claims
  }

  /** In every run from the empty cluster, live pods hold the promises of all they mount and share nothing. */
  ghost predicate Safe(lag: Time) {
    forall steps | IsRun(Empty, steps, lag) ::
      var s := End(Empty, steps, lag);
      |s.podLog| > 0 && |s.pvcLog| > 0 && Exclusive(s.Pods(), s.Pvcs()) && NoSharing(s.Pods())
  }

  lemma {:induction false} ExclusiveMeansNoSharing(pods: Pods, pvcs: Pvcs)
    requires Exclusive(pods, pvcs)
    ensures NoSharing(pods)
  {
    forall p, q | p in pods && q in pods && p != q && !Terminated(pods[p].phase) && !Terminated(pods[q].phase)
      ensures pods[p].claims !! pods[q].claims
    {
      assert Held(pvcs, pods[p].claims, p) && Held(pvcs, pods[q].claims, q);
    }
  }

  lemma {:induction false} Play(steps: seq<Step>, s: State, step: Step, lag: Time) returns (steps': seq<Step>, s': State)
    requires IsRun(Empty, steps, lag) && s == End(Empty, steps, lag) && Enabled(s, step, lag)
    ensures IsRun(Empty, steps', lag) && s' == End(Empty, steps', lag) && s' == Apply(s, step, lag)
  {
    RunExtends(Empty, steps, step, lag);
    steps', s' := steps + [step], Apply(s, step, lag);
  }

  // Pod "a" is created with a new claim "c", and is first missed at once, in a list from before its creation.
  lemma {:induction false} FirstPodIsMissed(lag: Time) returns (steps: seq<Step>, s: State)
    requires lag > Disappeared.GRACE
    ensures IsRun(Empty, steps, lag) && s == End(Empty, steps, lag)
    ensures s == State(0, [Snapshot(0, map[]), Snapshot(0, map["a" := Holder(Pending, {"c"})])],
                       [map[], map["c" := Pvc(0, "cache", Some("a"))]], {"a"}, map["a" := 0], Idle)
  {
    steps, s := Play([], Empty, Begin("a"), lag);
    steps, s := Play(steps, s, Make("c", "cache", Done), lag);
    assert s.activity.claims == {"c"};
    steps, s := Play(steps, s, Launch(Done), lag);
    steps, s := Play(steps, s, Check("c", 1, 0), lag);
    assert s.names == {"a"};
  }

  // GRACE later the same stale list still counts as current, and the promise is withdrawn.
  lemma {:induction false} StaleListReleases(lag: Time) returns (steps: seq<Step>, s: State)
    requires lag > Disappeared.GRACE
    ensures IsRun(Empty, steps, lag) && s == End(Empty, steps, lag)
    ensures |s.podLog| == 2 && s.Pods() == map["a" := Holder(Pending, {"c"})]
    ensures |s.pvcLog| == 3 && s.Pvcs() == map["c" := Pvc(1, "cache", None)]
    ensures s.names == {"a"} && s.activity == Idle
  {
    steps, s := FirstPodIsMissed(lag);
    steps, s := Play(steps, s, Tick(Disappeared.GRACE + 1), lag);
    steps, s := Play(steps, s, Check("c", 1, 0), lag);
    steps, s := Play(steps, s, Release(Done), lag);
  }

  // With lists that may lag by more than GRACE, a claim is handed over while its first pod still runs.
  lemma {:induction false} StaleListsShareAClaim(lag: Time) returns (steps: seq<Step>)
    requires lag > Disappeared.GRACE
    ensures IsRun(Empty, steps, lag)
    ensures var s := End(Empty, steps, lag); |s.podLog| > 0 && !NoSharing(s.Pods())
  {
    var s;
    steps, s := StaleListReleases(lag);
    steps, s := Play(steps, s, Begin("b"), lag);
    steps, s := Play(steps, s, Take("c", 2, Done), lag);
    assert "c" in s.activity.claims;
    steps, s := Play(steps, s, Launch(Done), lag);
    assert "c" in s.Pods()["a"].claims && "c" in s.Pods()["b"].claims;
  }

  /** Exclusive use of the cache volumes holds in every run exactly when the lists lag by at most 5 s. */
  lemma {:induction false} SafeExactlyWithinGrace(lag: Time)
    ensures Safe(lag) <==> lag <= 5 * SECOND
  {
    if lag <= Disappeared.GRACE {
      forall steps | IsRun(Empty, steps, lag)
        ensures var s := End(Empty, steps, lag);
                |s.podLog| > 0 && |s.pvcLog| > 0 && Exclusive(s.Pods(), s.Pvcs()) && NoSharing(s.Pods())
      {
        RunKeepsInvariant(Empty, steps, lag);
        var s := End(Empty, steps, lag);
        ExclusiveMeansNoSharing(s.Pods(), s.Pvcs());
      }
    } else {
      var steps := StaleListsShareAClaim(lag);
    }
  }
}
