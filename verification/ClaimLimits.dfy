/** What repeated allocations and releases do to the claims of a cluster. */
module ClaimLimits {
  import opened Numbers
  import opened Outcomes
  import opened Spec
  import opened Text
  import opened Lease
  import opened Volumes
  import opened Operator
  import Disappeared

  lemma {:induction false} CreatesOfPrefix(acts: seq<Act>, all: seq<Act>, v: string)
    requires acts <= all
    ensures Creates(acts, v) <= Creates(all, v)
  {
    if acts != [] {
      CreatesOfPrefix(acts[1..], all[1..], v);
    }
  }

  // Plans create only what the mounts ask for, and only below the limit.
  lemma {:induction false} PlanCreatesWithinLimit(mounts: seq<string>, claims: seq<Claim>, pod: string,
                                                  templates: seq<Template>, volumes: set<string>, v: string)
    ensures var created := Creates(PlanFor(mounts, claims, pod, templates, volumes).acts, v);
            created <= Times(mounts, v) && (created > 0 ==> ClaimsOf(claims, v) < Limit(templates, volumes, v))
  {
    hide Limit;
    if mounts != [] {
      var i := FirstFree(claims, mounts[0]);
      if i < |claims| {
        PromiseCounts(claims, i, pod, v);
        PlanCreatesWithinLimit(mounts[1..], Promise(claims, i, pod), pod, templates, volumes, v);
      } else {
        PlanCreatesWithinLimit(mounts[1..], claims, pod, templates, volumes, v);
      }
    }
  }

  // The list an allocation worked on differs from the cluster at most in who the claims are promised to.
  ghost predicate UpToDate(seen: Pvcs, current: Pvcs) {
    seen.Keys == current.Keys && VolumesKept(seen, current)
  }

  lemma {:induction false} ListCountsCluster(claims: seq<Claim>, names: seq<string>, seen: Pvcs, current: Pvcs, v: string)
    requires Shows(claims, names, seen) && Lists(names, seen.Keys) && UpToDate(seen, current)
    ensures ClaimsOf(claims, v) == |ClusterClaims(current, v)|
  {
    ListedClaimsCounted(claims, names, seen, v);
    assert NamedOf(names, seen, v) == ClusterClaims(current, v);
  }

  /** An allocation with an up-to-date list keeps every volume that is mounted at most once within its limit. */
  lemma {:induction false} AllocationKeepsLimit(seen: Pvcs, before: Pvcs, after: Pvcs, mounts: seq<string>, pod: string,
                                                templates: seq<Template>, volumes: set<string>, run: Allocation, v: string)
    requires Allocated(seen, before, after, mounts, pod, templates, volumes, run) && UpToDate(seen, before)
    requires Times(CacheMounts(mounts, volumes), v) <= 1
    ensures |ClusterClaims(after, v)| <= Max(|ClusterClaims(before, v)|, Limit(templates, volumes, v))
  {
    hide PlanFor, Shows, Lists, Creates, ClusterClaims, Limit, CacheMounts, Times;
    ListCountsCluster(run.claims, run.names, seen, before, v);
    PlanCreatesWithinLimit(CacheMounts(mounts, volumes), run.claims, pod, templates, volumes, v);
    CreatesOfPrefix(run.acts, PlanFor(CacheMounts(mounts, volumes), run.claims, pod, templates, volumes).acts, v);
  }

  // One step in the life of the claims: an allocation, successful or not, or anything else the operator does.
  ghost predicate ClaimStep(before: Pvcs, after: Pvcs, templates: seq<Template>, volumes: set<string>) {
    || UpToDate(before, after)
    || exists seen, mounts, pod, run ::
         && Allocated(seen, before, after, mounts, pod, templates, volumes, run)
         && UpToDate(seen, before) && OncePerPod(mounts, volumes)
  }

  ghost predicate ClaimRun(states: seq<Pvcs>, templates: seq<Template>, volumes: set<string>) {
    |states| > 0 && forall i | 0 < i < |states| :: ClaimStep(states[i - 1], states[i], templates, volumes)
  }

  /**
   Over any number of allocations that see up-to-date lists, the claims of a volume never become more than
   there were to begin with, or than the sum of MaxCount over the templates that mount it.
   */
  lemma {:induction false} ClaimsNeverExceedLimit(states: seq<Pvcs>, templates: seq<Template>, volumes: set<string>, v: string)
    requires ClaimRun(states, templates, volumes)
    ensures |ClusterClaims(states[|states| - 1], v)| <= Max(|ClusterClaims(states[0], v)|, Limit(templates, volumes, v))
    decreases |states|
  {
    hide ClusterClaims, Limit, Allocated, VolumesKept, OncePerPod;
    var n := |states| - 1;
    if n > 0 {
      ClaimsNeverExceedLimit(states[..n], templates, volumes, v);
      var before, after := states[n - 1], states[n];
      if UpToDate(before, after) {
        SameClaims(before, after, v);
      } else {
        var seen, mounts, pod, run :|
          && Allocated(seen, before, after, mounts, pod, templates, volumes, run)
          && UpToDate(seen, before) && OncePerPod(mounts, volumes);
        OnceEach(mounts, volumes, v);
        AllocationKeepsLimit(seen, before, after, mounts, pod, templates, volumes, run, v);
      }
    }
  }

  lemma {:induction false} OnceEach(mounts: seq<string>, volumes: set<string>, v: string)
    requires OncePerPod(mounts, volumes)
    ensures Times(CacheMounts(mounts, volumes), v) <= 1
  {
  }

  lemma {:induction false} SameClaims(before: Pvcs, after: Pvcs, v: string)
    requires UpToDate(before, after)
    ensures ClusterClaims(before, v) == ClusterClaims(after, v)
  {
  }

  lemma {:induction false} ListIsOnePerPod(claims: seq<Claim>, names: seq<string>, seen: Pvcs, v: string)
    requires Shows(claims, names, seen) && Lists(names, seen.Keys) && Single(seen)
    ensures OnePerPod(claims, v)
  {
    forall i, j | 0 <= i < j < |claims| && claims[i].volume == v == claims[j].volume && claims[i].promised.Some?
      ensures claims[i].promised != claims[j].promised
    {
      assert names[i] != names[j];
    }
  }

  lemma {:induction false} CacheMountsMember(mounts: seq<string>, volumes: set<string>, v: string)
    ensures v in CacheMounts(mounts, volumes) <==> v in mounts && v in volumes
  {
    if mounts != [] {
      assert mounts == [mounts[0]] + mounts[1..];
      CacheMountsMember(mounts[1..], volumes, v);
    }
  }

  // Every promise belongs to a live pod of a template that mounts the claim's volume.
  ghost predicate PromisedToUsers(seen: Pvcs, templates: seq<Template>, volumes: set<string>, live: seq<set<string>>)
    requires |live| == |templates|
  {
    forall c | c in seen && seen[c].promised.Some? ::
      seen[c].promised.value in Users(templates, volumes, seen[c].volume, live)
  }

  ghost predicate WithinMaxCounts(templates: seq<Template>, live: seq<set<string>>) {
    |live| == |templates| && forall i | 0 <= i < |templates| :: |live[i]| <= templates[i].maxCount
  }

  // An attempt to create a pod of a template, with an up-to-date list of the claims.
  datatype Attempt = Attempt(template: nat, pod: string, mounts: seq<string>, seen: Pvcs, run: Allocation, outcome: Assignment)

  // What ProvisionPod promises of the claims, for a pod that mounts each volume once, as its template does.
  ghost predicate Attempted(templates: seq<Template>, volumes: set<string>, before: Pvcs, after: Pvcs, a: Attempt) {
    var cache := CacheMounts(a.mounts, volumes);
    && a.template < |templates| && OncePerPod(a.mounts, volumes)
    && (forall v | v in cache :: v in Mounts(templates[a.template].containers))
    && Shows(a.run.claims, a.run.names, a.seen) && Lists(a.run.names, a.seen.Keys) && SamePromises(a.seen, before)
    && Follows(a.outcome, a.run.acts, PlanFor(cache, a.run.claims, a.pod, templates, volumes))
    && GrantsOnly(before, after, a.pod, cache) && (Single(before) ==> Single(after))
  }

  lemma {:induction false} SameIsSingle(seen: Pvcs, current: Pvcs)
    requires SamePromises(seen, current) && Single(current)
    ensures Single(seen)
  {
  }

  lemma {:induction false} SameIsPromised(seen: Pvcs, current: Pvcs, templates: seq<Template>, volumes: set<string>,
                                          live: seq<set<string>>)
    requires |live| == |templates| && SamePromises(seen, current) && PromisedToUsers(current, templates, volumes, live)
    ensures PromisedToUsers(seen, templates, volumes, live)
  {
    hide Users;
  }

  /**
   A pod of a template below its MaxCount is never refused for want of claims, while all promises belong to
   live pods of templates that mount the volumes, no template exceeds its MaxCount, and no pod holds two
   claims of a volume.
   */
  lemma {:induction false} NeverRefusedBelowMaxCount(templates: seq<Template>, volumes: set<string>, live: seq<set<string>>,
                                                     before: Pvcs, after: Pvcs, a: Attempt)
    requires Attempted(templates, volumes, before, after, a)
    requires WithinMaxCounts(templates, live) && |live[a.template]| < templates[a.template].maxCount
    requires Single(before) && PromisedToUsers(before, templates, volumes, live)
    ensures !a.outcome.Exhausted?
  {
    hide PlanFor, Limit, Single, SamePromises, PromisedToUsers;
    var cache := CacheMounts(a.mounts, volumes);
    SameIsSingle(a.seen, before);
    SameIsPromised(a.seen, before, templates, volumes, live);
    forall v | v in cache
      ensures Uses(templates[a.template], volumes, v) && Times(cache, v) <= 1
      ensures AllPromisedTo(a.run.claims, v, Users(templates, volumes, v, live)) && OnePerPod(a.run.claims, v)
    {
      CacheMountsMember(a.mounts, volumes, v);
      OnceEach(a.mounts, volumes, v);
      ListIsOnePerPod(a.run.claims, a.run.names, a.seen, v);
      ListIsPromised(a.run.claims, a.run.names, a.seen, templates, volumes, live, v);
    }
    NeverExhaustedBelowMaxCount(templates, volumes, live, a.template, cache, a.run.claims, a.pod);
  }

  lemma {:induction false} ListIsPromised(claims: seq<Claim>, names: seq<string>, seen: Pvcs, templates: seq<Template>,
                                          volumes: set<string>, live: seq<set<string>>, v: string)
    requires |live| == |templates| && Shows(claims, names, seen) && PromisedToUsers(seen, templates, volumes, live)
    ensures AllPromisedTo(claims, v, Users(templates, volumes, v, live))
  {
    hide Users;
  }

  // The live pods of the templates after an attempt.
  function LiveAfter(live: seq<set<string>>, a: Attempt): (after: seq<set<string>>)
    ensures |after| == |live|
  {
    if a.outcome.Assigned? && a.template < |live| then live[a.template := live[a.template] + {a.pod}] else live
  }

  lemma {:induction false} MoreUsers(templates: seq<Template>, volumes: set<string>, v: string, live: seq<set<string>>, a: Attempt)
    requires |live| == |templates|
    ensures |LiveAfter(live, a)| == |templates|
    ensures Users(templates, volumes, v, live) <= Users(templates, volumes, v, LiveAfter(live, a))
    ensures a.outcome.Assigned? && a.template < |templates| && Uses(templates[a.template], volumes, v) ==>
              a.pod in Users(templates, volumes, v, LiveAfter(live, a))
  {
    if templates != [] {
      var n := |templates| - 1;
      MoreUsers(templates[..n], volumes, v, live[..n], a);
      var after := LiveAfter(live, a);
      if a.outcome.Assigned? && a.template == n {
        assert after[..n] == live[..n];
        assert LiveAfter(live[..n], a) == live[..n];
      } else {
        assert after[..n] == LiveAfter(live[..n], a) && after[n] == live[n];
      }
    }
  }

  // The promises still belong to live pods after a pod was created.
  lemma {:induction false} StillPromisedToUsers(templates: seq<Template>, volumes: set<string>, live: seq<set<string>>,
                                                before: Pvcs, after: Pvcs, a: Attempt)
    requires |live| == |templates| && Attempted(templates, volumes, before, after, a) && a.outcome.Assigned?
    requires PromisedToUsers(before, templates, volumes, live)
    ensures PromisedToUsers(after, templates, volumes, LiveAfter(live, a))
  {
    hide Users, PlanFor, Single, SamePromises, Shows, Lists, LiveAfter;
    forall c | c in after && after[c].promised.Some?
      ensures after[c].promised.value in Users(templates, volumes, after[c].volume, LiveAfter(live, a))
    {
      MoreUsers(templates, volumes, after[c].volume, live, a);
      CacheMountsMember(a.mounts, volumes, after[c].volume);
    }
  }

  // How often a creation of a pod of the template was attempted.
  function Tries(attempts: seq<Attempt>, k: nat): nat {
    if attempts == [] then 0
    else
      var n := |attempts| - 1;
      Tries(attempts[..n], k) + if attempts[n].template == k then 1 else 0
  }

  /** The creations of one pass, one after the other. */
  ghost predicate Attempts(templates: seq<Template>, volumes: set<string>, states: seq<Pvcs>, attempts: seq<Attempt>) {
    && |states| == |attempts| + 1
    && forall i | 0 <= i < |attempts| :: Attempted(templates, volumes, states[i], states[i + 1], attempts[i])
  }

  function LiveAt(live: seq<set<string>>, attempts: seq<Attempt>): seq<set<string>> {
    if attempts == [] then live else LiveAfter(LiveAt(live, attempts[..|attempts| - 1]), attempts[|attempts| - 1])
  }

  ghost predicate RoomFor(templates: seq<Template>, live: seq<set<string>>, attempts: seq<Attempt>)
    requires |live| == |templates|
  {
    forall k | 0 <= k < |templates| && Tries(attempts, k) > 0 :: |live[k]| + Tries(attempts, k) <= templates[k].maxCount
  }

  lemma {:induction false} RoomForFewer(templates: seq<Template>, live: seq<set<string>>, attempts: seq<Attempt>)
    requires |live| == |templates| && attempts != [] && RoomFor(templates, live, attempts)
    ensures RoomFor(templates, live, attempts[..|attempts| - 1])
  {
  }

  lemma {:induction false} AttemptsSoFar(templates: seq<Template>, volumes: set<string>, live: seq<set<string>>,
                                         states: seq<Pvcs>, attempts: seq<Attempt>)
    requires Attempts(templates, volumes, states, attempts) && WithinMaxCounts(templates, live)
    requires Single(states[0]) && PromisedToUsers(states[0], templates, volumes, live)
    requires RoomFor(templates, live, attempts)
    requires forall i | 0 <= i < |attempts| :: !attempts[i].outcome.ApiFailure?
    ensures forall i | 0 <= i < |attempts| :: attempts[i].outcome.Assigned?
    ensures var now := LiveAt(live, attempts);
            && |now| == |templates|
            && (forall k | 0 <= k < |templates| :: |now[k]| <= |live[k]| + Tries(attempts, k))
            && Single(states[|attempts|]) && PromisedToUsers(states[|attempts|], templates, volumes, now)
    decreases |attempts|
  {
    hide Attempted, Single, PromisedToUsers;
    if attempts != [] {
      var n := |attempts| - 1;
      RoomForFewer(templates, live, attempts);
      AttemptsSoFar(templates, volumes, live, states[..n + 1], attempts[..n]);
      LastAttempt(templates, volumes, live, LiveAt(live, attempts[..n]), states[n], states[n + 1], attempts);
    }
  }

  lemma {:induction false} LastAttempt(templates: seq<Template>, volumes: set<string>, live: seq<set<string>>,
                                       now: seq<set<string>>, before: Pvcs, after: Pvcs, attempts: seq<Attempt>)
    requires attempts != [] && WithinMaxCounts(templates, live) && |now| == |templates|
    requires RoomFor(templates, live, attempts)
    requires var n := |attempts| - 1;
             && (forall k | 0 <= k < |templates| :: |now[k]| <= |live[k]| + Tries(attempts[..n], k))
             && Attempted(templates, volumes, before, after, attempts[n])
    requires Single(before) && PromisedToUsers(before, templates, volumes, now)
    ensures var a := attempts[|attempts| - 1];
            && !a.outcome.Exhausted?
            && (a.outcome.Assigned? ==>
                  && |LiveAfter(now, a)| == |templates|
                  && (forall k | 0 <= k < |templates| :: |LiveAfter(now, a)[k]| <= |live[k]| + Tries(attempts, k))
                  && Single(after) && PromisedToUsers(after, templates, volumes, LiveAfter(now, a)))
  {
    var a := attempts[|attempts| - 1];
    var k := a.template;
    SingleAfter(templates, volumes, before, after, a);
    assert Tries(attempts, k) == Tries(attempts[..|attempts| - 1], k) + 1;
    hide Attempted, Single, PromisedToUsers;
    NeverRefusedBelowMaxCount(templates, volumes, now, before, after, a);
    if a.outcome.Assigned? {
      StillPromisedToUsers(templates, volumes, now, before, after, a);
    }
  }

  lemma {:induction false} SingleAfter(templates: seq<Template>, volumes: set<string>, before: Pvcs, after: Pvcs, a: Attempt)
    requires Attempted(templates, volumes, before, after, a) && Single(before)
    ensures Single(after) && a.template < |templates|
  {
  }

  /**
   No pass reports exhausted volumes: if, when the creations of a pass begin, all promises belong to live pods
   of templates that mount the volumes, one claim of a volume each, and no more creations are attempted than
   the templates have room for, then none of them is refused for want of claims. A failed call ends the pass.
   */
  lemma {:induction false} NoPassReportsExhaustion(templates: seq<Template>, volumes: set<string>, live: seq<set<string>>,
                                                   states: seq<Pvcs>, attempts: seq<Attempt>)
    requires Attempts(templates, volumes, states, attempts) && WithinMaxCounts(templates, live)
    requires Single(states[0]) && PromisedToUsers(states[0], templates, volumes, live)
    requires RoomFor(templates, live, attempts)
    requires forall i | 0 <= i < |attempts| - 1 :: !attempts[i].outcome.ApiFailure?
    ensures forall i | 0 <= i < |attempts| :: !attempts[i].outcome.Exhausted?
  {
    hide Attempted, Single, PromisedToUsers;
    if attempts != [] {
      var n := |attempts| - 1;
      RoomForFewer(templates, live, attempts);
      AttemptsSoFar(templates, volumes, live, states[..n + 1], attempts[..n]);
      LastAttempt(templates, volumes, live, LiveAt(live, attempts[..n]), states[n], states[n + 1], attempts);
    }
  }

  // A pod to be created.
  datatype Order = Order(template: nat, pod: string, mounts: seq<string>)

  // Different names, and volumes as in the template, each mounted once.
  ghost predicate Orderable(orders: seq<Order>, templates: seq<Template>, volumes: set<string>) {
    && (forall i | 0 <= i < |orders| :: orders[i].template < |templates| && OncePerPod(orders[i].mounts, volumes))
    && (forall i, v | 0 <= i < |orders| && v in CacheMounts(orders[i].mounts, volumes) ::
          v in Mounts(templates[orders[i].template].containers))
    && forall i, j | 0 <= i < j < |orders| :: orders[i].pod != orders[j].pod
  }

  function Ordered(orders: seq<Order>, k: nat): nat {
    if orders == [] then 0
    else
      var n := |orders| - 1;
      Ordered(orders[..n], k) + if orders[n].template == k then 1 else 0
  }

  ghost predicate RoomForOrders(templates: seq<Template>, live: seq<set<string>>, orders: seq<Order>)
    requires |live| == |templates|
  {
    forall k | 0 <= k < |templates| && Ordered(orders, k) > 0 :: |live[k]| + Ordered(orders, k) <= templates[k].maxCount
  }

  predicate IsFor(a: Attempt, o: Order) {
    a.template == o.template && a.pod == o.pod && a.mounts == o.mounts
  }

  // The attempts follow the orders, up to the first failed call.
  ghost predicate Executes(attempts: seq<Attempt>, orders: seq<Order>) {
    && |attempts| <= |orders|
    && (forall i | 0 <= i < |attempts| :: IsFor(attempts[i], orders[i]))
    && (forall i | 0 <= i < |attempts| - 1 :: !attempts[i].outcome.ApiFailure?)
    && (|attempts| < |orders| ==> attempts != [] && attempts[|attempts| - 1].outcome.ApiFailure?)
  }

  lemma {:induction false} TriesAreOrdered(attempts: seq<Attempt>, orders: seq<Order>, k: nat)
    requires |attempts| <= |orders| && forall i | 0 <= i < |attempts| :: IsFor(attempts[i], orders[i])
    ensures Tries(attempts, k) <= Ordered(orders, k)
    decreases |orders|
  {
    if orders != [] {
      var n := |orders| - 1;
      TriesAreOrdered(if |attempts| > n then attempts[..n] else attempts, orders[..n], k);
    }
  }

  /** Every allocation of the pass worked on a list that shows the claims as they were when it began. */
  ghost predicate Current(states: seq<Pvcs>, attempts: seq<Attempt>) {
    && |states| == |attempts| + 1
    && forall i | 0 <= i < |attempts| :: SamePromises(attempts[i].seen, states[i])
  }

  // What is known of one attempt, whatever the age of its list.
  ghost predicate Made(templates: seq<Template>, volumes: set<string>, before: Pvcs, after: Pvcs, a: Attempt) {
    SamePromises(a.seen, before) ==> Attempted(templates, volumes, before, after, a)
  }

  lemma {:induction false} OrderIsMade(templates: seq<Template>, volumes: set<string>, before: Pvcs, now: Pvcs, later: Pvcs,
                                       orders: seq<Order>, i: nat, a: Attempt)
    requires Orderable(orders, templates, volumes) && i < |orders| && IsFor(a, orders[i]) && SamePromises(now, later)
    requires Allocated(a.seen, before, now, a.mounts, a.pod, templates, volumes, a.run)
    requires Follows(a.outcome, a.run.acts, PlanFor(CacheMounts(a.mounts, volumes), a.run.claims, a.pod, templates, volumes))
    requires GrantsOnly(before, now, a.pod, CacheMounts(a.mounts, volumes)) && (Single(before) ==> Single(now))
    ensures Made(templates, volumes, before, later, a)
  {
    PromisesStay(before, now, later, a.pod, CacheMounts(a.mounts, volumes));
    hide SamePromises, GrantsOnly, Single, Shows, Lists, GrewBy, Follows, PlanFor, OncePerPod;
  }

  lemma {:induction false} PromisesStay(before: Pvcs, now: Pvcs, later: Pvcs, pod: string, cache: seq<string>)
    requires SamePromises(now, later) && GrantsOnly(before, now, pod, cache)
    ensures GrantsOnly(before, later, pod, cache) && (Single(now) ==> Single(later))
  {
  }

  // The first attempts of a pass, the state before each and after the last.
  ghost predicate InTurn(templates: seq<Template>, volumes: set<string>, orders: seq<Order>, states: seq<Pvcs>,
                         attempts: seq<Attempt>) {
    && |attempts| <= |orders| && |states| == |attempts| + 1
    && (forall i | 0 <= i < |attempts| :: IsFor(attempts[i], orders[i]))
    && (forall i | 0 <= i < |attempts| :: Made(templates, volumes, states[i], states[i + 1], attempts[i]))
    && (forall i | 0 <= i < |attempts| - 1 :: !attempts[i].outcome.ApiFailure?)
  }

  lemma {:induction false} NothingInTurn(templates: seq<Template>, volumes: set<string>, orders: seq<Order>, start: Pvcs)
    ensures InTurn(templates, volumes, orders, [start], [])
  {
  }

  lemma {:induction false} NextInTurn(templates: seq<Template>, volumes: set<string>, orders: seq<Order>, states: seq<Pvcs>,
                                      attempts: seq<Attempt>, after: Pvcs, a: Attempt)
    requires InTurn(templates, volumes, orders, states, attempts) && |attempts| < |orders|
    requires IsFor(a, orders[|attempts|]) && Made(templates, volumes, states[|attempts|], after, a)
    requires attempts != [] ==> !attempts[|attempts| - 1].outcome.ApiFailure?
    ensures InTurn(templates, volumes, orders, states + [after], attempts + [a])
  {
    hide Made, IsFor;
  }

  lemma {:induction false} TurnsAreAttempts(templates: seq<Template>, volumes: set<string>, orders: seq<Order>,
                                            states: seq<Pvcs>, attempts: seq<Attempt>)
    requires InTurn(templates, volumes, orders, states, attempts)
    ensures Current(states, attempts) ==> Attempts(templates, volumes, states, attempts)
  {
    hide Attempted, SamePromises, IsFor;
  }

  lemma {:induction false} TurnsAreExecution(templates: seq<Template>, volumes: set<string>, orders: seq<Order>,
                                             states: seq<Pvcs>, attempts: seq<Attempt>)
    requires InTurn(templates, volumes, orders, states, attempts)
    requires |attempts| == |orders| || (attempts != [] && attempts[|attempts| - 1].outcome.ApiFailure?)
    ensures Executes(attempts, orders)
  {
    hide Made, IsFor;
  }

  /** There is room for all the orders, and every promise belongs to a live pod that may have it. */
  ghost predicate Prepared(templates: seq<Template>, volumes: set<string>, live: seq<set<string>>, orders: seq<Order>,
                           pvcs: Pvcs) {
    && WithinMaxCounts(templates, live) && RoomForOrders(templates, live, orders)
    && Single(pvcs) && PromisedToUsers(pvcs, templates, volumes, live)
  }

  lemma {:induction false} OrdersAreServed(templates: seq<Template>, volumes: set<string>, live: seq<set<string>>,
                                           states: seq<Pvcs>, orders: seq<Order>, attempts: seq<Attempt>)
    requires Attempts(templates, volumes, states, attempts) && Executes(attempts, orders)
    requires Prepared(templates, volumes, live, orders, states[0])
    ensures forall i | 0 <= i < |attempts| :: !attempts[i].outcome.Exhausted?
  {
    forall k | 0 <= k < |templates| && Tries(attempts, k) > 0
      ensures |live[k]| + Tries(attempts, k) <= templates[k].maxCount
    {
      TriesAreOrdered(attempts, orders, k);
    }
    hide Attempted, Single, PromisedToUsers, Tries, RoomForOrders;
    NoPassReportsExhaustion(templates, volumes, live, states, attempts);
  }

  lemma {:induction false} DriftKeepsPromises(a: State, b: State)
    requires Drift(a, b)
    ensures |a.pvcLog| > 0 && |b.pvcLog| > 0 && SamePromises(a.Pvcs(), b.Pvcs())
    ensures b.activity == a.activity && b.names == a.names
  {
  }

  lemma {:induction false} HasClaims(operator: VolumeOperator)
    requires operator.Valid()
    ensures |operator.st.pvcLog| > 0
  {
    hide IsRun, End;
  }

  // The names of the orders from the n-th on are still to be used.
  ghost predicate Unused(orders: seq<Order>, n: nat, names: set<string>) {
    forall i | n <= i < |orders| :: orders[i].pod !in names
  }

  lemma {:induction false} UnusedNext(orders: seq<Order>, n: nat, templates: seq<Template>, volumes: set<string>,
                                      names: set<string>)
    requires Orderable(orders, templates, volumes) && n < |orders| && Unused(orders, n, names)
    ensures orders[n].pod !in names && Unused(orders, n + 1, names + {orders[n].pod})
    ensures OncePerPod(orders[n].mounts, volumes)
  {
    hide OncePerPod;
  }

  lemma {:induction false} NoneExhausted(templates: seq<Template>, volumes: set<string>, orders: seq<Order>,
                                         states: seq<Pvcs>, attempts: seq<Attempt>)
    requires Executes(attempts, orders) && |states| == |attempts| + 1
    requires Current(states, attempts) ==> Attempts(templates, volumes, states, attempts)
    ensures forall live | Prepared(templates, volumes, live, orders, states[0]) && Current(states, attempts) ::
              forall i | 0 <= i < |attempts| :: !attempts[i].outcome.Exhausted?
  {
    hide *;
    forall live | Prepared(templates, volumes, live, orders, states[0]) && Current(states, attempts)
      ensures forall i | 0 <= i < |attempts| :: !attempts[i].outcome.Exhausted?
    {
      OrdersAreServed(templates, volumes, live, states, orders, attempts);
    }
  }

  lemma {:induction false} FollowsOrder(a: Attempt, o: Order)
    requires a.template == o.template && a.pod == o.pod && a.mounts == o.mounts
    ensures IsFor(a, o)
  {
  }

  // One creation, and what happens before the next one.
  method CreateNext(operator: VolumeOperator, orders: seq<Order>, n: nat, templates: seq<Template>, volumes: set<string>)
    returns (ghost a: Attempt, stop: bool)
    requires operator.Valid() && operator.st.activity == Idle && Orderable(orders, templates, volumes)
    requires n < |orders| && Unused(orders, n, operator.st.names)
    modifies operator
    ensures operator.Valid() && operator.st.activity == Idle && |old(operator.st.pvcLog)| > 0 && |operator.st.pvcLog| > 0
    ensures Unused(orders, n + 1, operator.st.names)
    ensures IsFor(a, orders[n]) && (stop <==> a.outcome.ApiFailure?)
    ensures Made(templates, volumes, old(operator.st.Pvcs()), operator.st.Pvcs(), a)
  {
    hide *;
    var o := orders[n];
    HasClaims(operator);
    UnusedNext(orders, n, templates, volumes, operator.st.names);
    ghost var first := operator.st;
    var r, granted;
    ghost var run;
    r, granted, run := operator.ProvisionPod(o.pod, o.mounts, templates, volumes);
    ghost var now := operator.st;
    operator.Interfere(None);
    DriftKeepsPromises(now, operator.st);
    a := Attempt(o.template, o.pod, o.mounts, first.pvcLog[run.view], run, r);
    FollowsOrder(a, o);
    OrderIsMade(templates, volumes, first.Pvcs(), now.Pvcs(), operator.st.Pvcs(), orders, n, a);
    stop := r.ApiFailure?;
  }

  /**
   The creations of a pass on the claims of the cluster, until one fails. If the lists are up to date, none is
   refused for want of claims, provided that there was room for all of them when the pass began.
   */
  method CreateInTurn(operator: VolumeOperator, orders: seq<Order>, templates: seq<Template>, volumes: set<string>)
    returns (ghost states: seq<Pvcs>, ghost attempts: seq<Attempt>)
    requires operator.Valid() && operator.st.activity == Idle && Orderable(orders, templates, volumes)
    requires Unused(orders, 0, operator.st.names)
    modifies operator
    ensures operator.Valid() && operator.st.activity == Idle && |old(operator.st.pvcLog)| > 0 && |operator.st.pvcLog| > 0
    ensures |states| == |attempts| + 1 && states[0] == old(operator.st.Pvcs()) && states[|attempts|] == operator.st.Pvcs()
    ensures Executes(attempts, orders)
    ensures Current(states, attempts) ==> Attempts(templates, volumes, states, attempts)
    ensures forall live | Prepared(templates, volumes, live, orders, states[0]) && Current(states, attempts) ::
              forall i | 0 <= i < |attempts| :: !attempts[i].outcome.Exhausted?
  {
    hide *;
    HasClaims(operator);
    attempts, states := [], [operator.st.Pvcs()];
    NothingInTurn(templates, volumes, orders, operator.st.Pvcs());
    var stop := false;
    var n := 0;
    while n < |orders| && !stop
      invariant operator.Valid() && operator.st.activity == Idle && |operator.st.pvcLog| > 0
      invariant n <= |orders| && |attempts| == n && |states| == n + 1
      invariant states[0] == old(operator.st.Pvcs()) && states[n] == operator.st.Pvcs()
      invariant Unused(orders, n, operator.st.names)
      invariant InTurn(templates, volumes, orders, states, attempts)
      invariant stop <==> n > 0 && attempts[n - 1].outcome.ApiFailure?
      decreases |orders| - n
    {
      ghost var a;
      a, stop := CreateNext(operator, orders, n, templates, volumes);
      NextInTurn(templates, volumes, orders, states, attempts, operator.st.Pvcs(), a);
      states, attempts, n := states + [operator.st.Pvcs()], attempts + [a], n + 1;
    }
    TurnsAreAttempts(templates, volumes, orders, states, attempts);
    TurnsAreExecution(templates, volumes, orders, states, attempts);
    NoneExhausted(templates, volumes, orders, states, attempts);
  }

  /**
   A promise to a pod that was never created, or has vanished, does not last: of two passes without a failed
   call, the second beginning more than GRACE after the first ended and both over within RETENTION - GRACE,
   one withdraws it.
   */
  lemma {:induction false} TwoPassesReleaseMissing(first: Inspection, start: State, end: State, i: nat,
                                                   second: Inspection, restart: State, finish: State, j: nat)
    requires |end.podLog| > 0 && |end.pvcLog| > 0 && Invariant(end) && |finish.pvcLog| > 0
    requires first.podView < |end.podLog| && second.podView < |finish.podLog|
    requires i < |first.claims| && j < |second.claims|
    requires AllReleased(first.claims, |first.claims|, end.podLog[first.podView].pods, start, end)
    requires AllReleased(second.claims, |second.claims|, finish.podLog[second.podView].pods, restart, finish)
    requires first.claims[i].name == second.claims[j].name
    requires first.claims[i].promised.Some? && second.claims[j].promised == first.claims[i].promised
    requires first.claims[i].promised.value !in end.podLog[first.podView].pods
    requires second.claims[j].promised.value !in finish.podLog[second.podView].pods
    requires Remembers(end.misses, restart.misses, restart.now)
    requires end.now + Disappeared.GRACE < restart.now <= finish.now
    requires start.now <= end.now && finish.now - start.now <= Disappeared.RETENTION - Disappeared.GRACE
    ensures Unpromised(first.claims[i], end.Pvcs()) || Unpromised(second.claims[j], finish.Pvcs())
  {
    var pod := first.claims[i].promised.value;
    if !Unpromised(first.claims[i], end.Pvcs()) {
      assert KnownMissing(pod, end.misses, start.now);
      assert PodsConsistent(end.podLog, end.now, end.names, end.misses);
      assert MustRelease(second.claims[j], finish.podLog[second.podView].pods, restart.misses, restart.now, finish.now);
    }
  }
}
