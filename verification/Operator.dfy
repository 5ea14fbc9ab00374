/**
 The operator's volume handling as a program: every call to the API is one step of the lease protocol, and
 between any two calls other steps happen - pods start, end and vanish, claims are touched, time passes.
 */
module Operator {
  import opened Clock
  import opened Outcomes
  import opened Spec
  import opened Text
  import opened Lease
  import opened Volumes
  import Disappeared

  datatype Assignment = Assigned | Exhausted(volume: string) | ApiFailure

  // The claims of the cluster that belong to a volume.
  ghost function ClusterClaims(pvcs: Pvcs, v: string): set<string> {
    set c | c in pvcs && pvcs[c].volume == v
  }

  // Nothing but versions changed.
  ghost predicate SamePromises(before: Pvcs, after: Pvcs) {
    before.Keys == after.Keys &&
    forall c | c in before :: after[c].volume == before[c].volume && after[c].promised == before[c].promised
  }

  ghost predicate VolumesKept(before: Pvcs, after: Pvcs) {
    before.Keys <= after.Keys && forall c | c in before :: after[c].volume == before[c].volume
  }

  // The cluster got as many new claims of each volume as the acts create, and no claim changed its volume.
  ghost predicate GrewBy(before: Pvcs, after: Pvcs, acts: seq<Act>) {
    VolumesKept(before, after) &&
    forall v :: |ClusterClaims(after, v)| == |ClusterClaims(before, v)| + Creates(acts, v)
  }

  lemma {:induction false} UnchangedClaims(before: Pvcs, middle: Pvcs, after: Pvcs, acts: seq<Act>)
    requires GrewBy(before, middle, acts) && VolumesKept(middle, after) && middle.Keys == after.Keys
    ensures GrewBy(before, after, acts)
  {
    forall v ensures ClusterClaims(after, v) == ClusterClaims(middle, v) {
    }
  }

  lemma {:induction false} CreatesAppend(acts: seq<Act>, act: Act, v: string)
    ensures Creates(acts + [act], v) == Creates(acts, v) + if act == Create(v) then 1 else 0
  {
    if acts != [] {
      assert (acts + [act])[1..] == acts[1..] + [act];
      CreatesAppend(acts[1..], act, v);
    }
  }

  lemma {:induction false} GrewByReuse(before: Pvcs, middle: Pvcs, after: Pvcs, acts: seq<Act>, i: nat)
    requires GrewBy(before, middle, acts) && VolumesKept(middle, after) && middle.Keys == after.Keys
    ensures GrewBy(before, after, acts + [Reuse(i)])
  {
    UnchangedClaims(before, middle, after, acts);
    forall v { CreatesAppend(acts, Reuse(i), v); }
  }

  lemma {:induction false} NewClaimJoins(before: Pvcs, after: Pvcs, c: string, w: string)
    requires VolumesKept(before, after) && c !in before && after.Keys == before.Keys + {c}
    ensures ClusterClaims(after, w) == ClusterClaims(before, w) + if after[c].volume == w then {c} else {}
  {
  }

  lemma {:induction false} NewClaimCounted(before: Pvcs, after: Pvcs, c: string, w: string)
    requires VolumesKept(before, after) && c !in before && after.Keys == before.Keys + {c}
    ensures |ClusterClaims(after, w)| == |ClusterClaims(before, w)| + if after[c].volume == w then 1 else 0
  {
    NewClaimJoins(before, after, c, w);
    assert c !in ClusterClaims(before, w);
    hide *;
  }

  lemma {:induction false} GrewByCreate(before: Pvcs, middle: Pvcs, after: Pvcs, acts: seq<Act>, c: string)
    requires GrewBy(before, middle, acts) && VolumesKept(middle, after)
    requires c !in middle && after.Keys == middle.Keys + {c}
    ensures GrewBy(before, after, acts + [Create(after[c].volume)])
  {
    hide ClusterClaims, Creates;
    var v := after[c].volume;
    forall w ensures |ClusterClaims(after, w)| == |ClusterClaims(before, w)| + Creates(acts + [Create(v)], w) {
      CreatesAppend(acts, Create(v), w);
      NewClaimCounted(middle, after, c, w);
    }
  }

  ghost predicate InNameOrder(claims: seq<Claim>) {
    forall i, j | 0 <= i < j < |claims| :: NoLater(claims[i].name, claims[j].name)
  }

  // The listed claims describe a past version of the cluster's claims, except that some are marked as promised
  // since. They are sorted by name.
  ghost predicate Listing(claims: seq<Claim>, seen: Pvcs) {
    && InNameOrder(claims)
    && forall i | 0 <= i < |claims| ::
      && claims[i].name in seen && seen[claims[i].name].volume == claims[i].volume
      && (claims[i].promised.None? ==> seen[claims[i].name].promised.None?)
  }

  lemma {:induction false} ShownIsListing(claims: seq<Claim>, names: seq<string>, seen: Pvcs)
    requires Shows(claims, names, seen) && Sorted(names)
    ensures Listing(claims, seen)
  {
    SortedInOrder(names);
    hide Sorted, NoLater;
    forall i, j | 0 <= i < j < |claims| ensures NoLater(claims[i].name, claims[j].name) {
      assert claims[i].name == names[i] && claims[j].name == names[j];
    }
  }

  // The claim that is reused comes first, by name, among the free ones of its volume.
  ghost predicate LeastFree(claims: seq<Claim>, v: string, claim: string) {
    && (exists i | 0 <= i < |claims| :: claims[i].name == claim && claims[i].volume == v && claims[i].promised.None?)
    && forall j | 0 <= j < |claims| && claims[j].volume == v && claims[j].promised.None? :: NoLater(claim, claims[j].name)
  }

  lemma {:induction false} FirstFreeIsLeast(claims: seq<Claim>, v: string)
    requires InNameOrder(claims) && FirstFree(claims, v) < |claims|
    ensures LeastFree(claims, v, claims[FirstFree(claims, v)].name)
  {
    var i := FirstFree(claims, v);
    assert claims[i].name <= claims[i].name;
    hide FirstFree;
    forall j | 0 <= j < |claims| && claims[j].volume == v && claims[j].promised.None?
      ensures NoLater(claims[i].name, claims[j].name)
    {
      assert j >= i;
      if j == i {
        assert NoLater(claims[i].name, claims[i].name);
      }
    }
  }

  // What may have happened while the operator was waiting.
  ghost predicate Drift(a: State, b: State) {
    && |a.pvcLog| > 0 && |b.pvcLog| > 0
    && b.activity == a.activity && b.names == a.names && b.misses == a.misses && a.now <= b.now
    && a.podLog <= b.podLog && a.pvcLog <= b.pvcLog && SamePromises(a.Pvcs(), b.Pvcs())
    && |a.podLog| > 0 && NoRevival(a.Pods(), b.Pods())
  }

  ghost predicate NoRevival(before: Pods, after: Pods) {
    forall p | Dead(before, p) :: Dead(after, p)
  }

  predicate IsOutside(step: Step) {
    step.Tick? || step.Advance? || step.Vanish? || step.Touch?
  }

  lemma {:induction false} DriftStarts(a: State)
    requires Invariant(a)
    ensures |a.podLog| > 0 && |a.pvcLog| > 0 && Drift(a, a)
  {
  }

  lemma {:induction false} OutsideStepDrifts(a: State, b: State, step: Step, lag: Time)
    requires Drift(a, b) && IsOutside(step) && Enabled(b, step, lag)
    ensures Drift(a, Apply(b, step, lag))
  {
  }

  lemma {:induction false} DriftKeepsVolumes(a: State, b: State)
    requires Drift(a, b)
    ensures |a.pvcLog| > 0 && |b.pvcLog| > 0 && |b.podLog| > 0 && a.pvcLog <= b.pvcLog && b.activity == a.activity
    ensures VolumesKept(a.Pvcs(), b.Pvcs()) && a.Pvcs().Keys == b.Pvcs().Keys && a.names == b.names
  {
  }

  // Promises were at most withdrawn, and only from pods that are dead by now.
  ghost predicate Weakened(before: Pvcs, after: Pvcs, pods: Pods) {
    before.Keys == after.Keys &&
    forall c | c in before ::
      && after[c].volume == before[c].volume
      && (after[c].promised == before[c].promised
          || (before[c].promised.Some? && after[c].promised.None? && Dead(pods, before[c].promised.value)))
  }

  lemma {:induction false} WeakenedByDrift(first: Pvcs, a: State, b: State)
    requires |a.pvcLog| > 0 && |a.podLog| > 0 && Weakened(first, a.Pvcs(), a.Pods()) && Drift(a, b)
    ensures Weakened(first, b.Pvcs(), b.Pods())
  {
  }

  lemma {:induction false} WeakenedTwice(first: Pvcs, second: Pvcs, third: Pvcs, earlier: Pods, later: Pods)
    requires Weakened(first, second, earlier) && Weakened(second, third, later) && NoRevival(earlier, later)
    ensures Weakened(first, third, later)
  {
  }

  // What is known of missing pods is kept until it is RETENTION old.
  ghost predicate Remembers(earlier: Disappeared.Misses, later: Disappeared.Misses, now: Time) {
    forall p | p in earlier && now - earlier[p] <= Disappeared.RETENTION :: p in later && later[p] == earlier[p]
  }

  lemma {:induction false} RemembersTwice(first: Disappeared.Misses, second: Disappeared.Misses,
                                          third: Disappeared.Misses, earlier: Time, later: Time)
    requires Remembers(first, second, earlier) && Remembers(second, third, later) && earlier <= later
    ensures Remembers(first, third, later)
  {
  }

  /** A pass has to release the claim: its pod is listed as terminated, or has been missing for long enough. */
  predicate MustRelease(claim: Claim, listed: Pods, misses: Disappeared.Misses, since: Time, until: Time) {
    claim.promised.Some? &&
    var pod := claim.promised.value;
    if pod in listed then Terminated(listed[pod].phase)
    else
      && pod in misses && since - misses[pod] > Disappeared.GRACE
      && until - misses[pod] <= Disappeared.RETENTION
  }

  // The pod is remembered as missing, and that is not long ago or was found out after `since`.
  predicate KnownMissing(pod: string, misses: Disappeared.Misses, since: Time) {
    pod in misses && misses[pod] >= since - Disappeared.GRACE
  }

  predicate ListedAsEnded(listed: Pods, pod: string) {
    pod in listed && (listed[pod].phase == Succeeded || listed[pod].phase == Failed)
  }

  predicate ListedAsLive(listed: Pods, pod: string) {
    pod in listed && (listed[pod].phase == Pending || listed[pod].phase == Running || listed[pod].phase == Unknown)
  }

  // Nothing but the promise of one claim was changed.
  ghost predicate OthersKept(before: Pvcs, after: Pvcs, claim: string) {
    before.Keys <= after.Keys && forall c | c in before && c != claim :: after[c].promised == before[c].promised
  }

  lemma {:induction false} NothingLost(pvcs: Pvcs, claim: string)
    ensures OthersKept(pvcs, pvcs, claim)
  {
  }

  lemma {:induction false} OthersKeptSince(a: State, b: State, after: Pvcs, claim: string)
    requires Drift(a, b) && OthersKept(b.Pvcs(), after, claim)
    ensures OthersKept(a.Pvcs(), after, claim)
  {
  }

  lemma {:induction false} EndedMustBeReleased(claim: Claim, listed: Pods, misses: Disappeared.Misses, since: Time, until: Time)
    requires claim.promised.Some? && ListedAsEnded(listed, claim.promised.value)
    ensures MustRelease(claim, listed, misses, since, until)
  {
  }

  lemma {:induction false} LiveIsLeft(s: State, claim: string, view: nat, podView: nat, lag: Time)
    requires Enabled(s, Check(claim, view, podView), lag)
    ensures ListedAsLive(s.podLog[podView].pods, s.pvcLog[view][claim].promised.value) ==>
              Apply(s, Check(claim, view, podView), lag) == s
  {
  }

  lemma {:induction false} CheckEffect(s: State, claim: string, view: nat, podView: nat, lag: Time)
    requires Enabled(s, Check(claim, view, podView), lag)
    ensures var s', seen, listed :=
              Apply(s, Check(claim, view, podView), lag), s.pvcLog[view][claim], s.podLog[podView].pods;
            && s' == s.(activity := s'.activity, misses := s'.misses)
            && (s'.activity == Idle || s'.activity == Releasing(claim, seen))
            && Remembers(s.misses, s'.misses, s.now)
            && (s'.activity == Idle ==>
                && !MustRelease(Claim(claim, seen.volume, seen.promised), listed, s.misses, s.now, s.now)
                && (seen.promised.value !in listed ==> KnownMissing(seen.promised.value, s'.misses, s.now)))
  {
  }

  lemma {:induction false} ReleaseEffect(s: State, reply: Reply, lag: Time)
    requires Invariant(s) && Enabled(s, Release(reply), lag)
    ensures var s' := Apply(s, Release(reply), lag);
            && s'.activity == Idle && s.pvcLog <= s'.pvcLog && |s'.pvcLog| > 0
            && s' == s.(activity := Idle, pvcLog := s'.pvcLog)
            && Weakened(s.Pvcs(), s'.Pvcs(), s.Pods()) && OthersKept(s.Pvcs(), s'.Pvcs(), s.activity.claim)
            && (reply == Done && s.Pvcs()[s.activity.claim].version == s.activity.seen.version ==>
                s'.Pvcs()[s.activity.claim].promised.None?)
  {
    var claim, seen := s.activity.claim, s.activity.seen;
    assert Precedes(map[claim := seen], s.Pvcs());
    if s.Pvcs()[claim].version == seen.version {
      assert (map[claim := seen])[claim] == s.Pvcs()[claim];
    }
  }

  lemma {:induction false} ReleasingIsListed(s: State, claim: string, view: nat, seen: Pvc, reply: Reply, lag: Time)
    requires Invariant(s) && s.activity == Releasing(claim, seen) && view < |s.pvcLog| && claim in s.pvcLog[view]
    ensures claim in s.Pvcs() && Enabled(s, Release(reply), lag)
  {
    SeenStays(s, view, claim);
  }

  // A pod list still counts as recent: it is current, or was superseded at most `lag` ago.
  predicate Recent(s: State, podView: nat, lag: Time) {
    podView < |s.podLog| && (podView == |s.podLog| - 1 || s.now - s.podLog[podView + 1].since <= lag)
  }

  lemma {:induction false} SeenStays(s: State, view: nat, claim: string)
    requires Invariant(s) && view < |s.pvcLog| && claim in s.pvcLog[view]
    ensures claim in s.Pvcs()
  {
    assert Precedes(s.pvcLog[view], s.Pvcs());
  }

  // At most the claim x changed its promise, and then it is a claim of volume v promised to the pod.
  ghost predicate GrantingTo(before: Pvcs, after: Pvcs, pod: string, v: string, x: string) {
    && (forall c | c in after && c != x :: c in before && after[c].promised == before[c].promised)
    && (x in after ==>
          || (after[x].volume == v && after[x].promised == Some(pod))
          || (x in before && after[x].promised == before[x].promised))
  }

  ghost predicate Granting(before: Pvcs, after: Pvcs, pod: string, v: string) {
    VolumesKept(before, after) && exists x :: GrantingTo(before, after, pod, v, x)
  }

  lemma {:induction false} GrantingAfterDrift(a: State, b: State, after: Pvcs, pod: string, v: string, x: string)
    requires Drift(a, b) && VolumesKept(b.Pvcs(), after) && GrantingTo(b.Pvcs(), after, pod, v, x)
    ensures Granting(a.Pvcs(), after, pod, v)
  {
    assert GrantingTo(a.Pvcs(), after, pod, v, x);
  }

  lemma {:induction false} NothingGranted(a: State, b: State, pod: string, v: string)
    requires Drift(a, b)
    ensures Granting(a.Pvcs(), b.Pvcs(), pod, v)
  {
    assert GrantingTo(a.Pvcs(), b.Pvcs(), pod, v, "");
  }

  /** No pod is promised two claims of one volume. */
  ghost predicate Single(pvcs: Pvcs) {
    forall c, d | c in pvcs && d in pvcs && c != d && pvcs[c].promised.Some? && pvcs[c].promised == pvcs[d].promised ::
      pvcs[c].volume != pvcs[d].volume
  }

  ghost predicate PromisedWithin(pvcs: Pvcs, pod: string, volumes: seq<string>) {
    forall c | c in pvcs && pvcs[c].promised == Some(pod) :: pvcs[c].volume in volumes
  }

  // Every promise that is new is one to the pod, of a claim of one of the volumes.
  ghost predicate GrantsOnly(before: Pvcs, after: Pvcs, pod: string, volumes: seq<string>) {
    VolumesKept(before, after) &&
    forall c | c in after ::
      || (c in before && after[c].promised == before[c].promised)
      || (after[c].promised == Some(pod) && after[c].volume in volumes)
  }

  lemma {:induction false} GrantsOnlyMore(first: Pvcs, before: Pvcs, after: Pvcs, pod: string, volumes: seq<string>, v: string)
    requires GrantsOnly(first, before, pod, volumes) && Granting(before, after, pod, v) && v in volumes
    ensures GrantsOnly(first, after, pod, volumes)
  {
    var x :| GrantingTo(before, after, pod, v, x);
  }

  // While claims are granted to a pod: no volume twice, and only the volumes dealt with so far.
  ghost predicate Orderly(pvcs: Pvcs, pod: string, done: seq<string>) {
    Single(pvcs) && PromisedWithin(pvcs, pod, done)
  }

  lemma {:induction false} GrantKeepsSingle(before: Pvcs, after: Pvcs, pod: string, cache: seq<string>, k: nat)
    requires k < |cache| && cache[k] !in cache[..k]
    requires Orderly(before, pod, cache[..k]) && Granting(before, after, pod, cache[k])
    ensures Orderly(after, pod, cache[..k + 1]) && Orderly(after, pod, cache)
  {
    var x :| GrantingTo(before, after, pod, cache[k], x);
    assert cache[..k + 1] == cache[..k] + [cache[k]];
  }

  lemma {:induction false} WeakenedStaysSingle(before: Pvcs, after: Pvcs, pods: Pods)
    requires Weakened(before, after, pods) && Single(before)
    ensures Single(after)
  {
  }

  lemma {:induction false} TakeEffect(s: State, claim: string, view: nat, reply: Reply, lag: Time)
    requires Invariant(s) && Enabled(s, Take(claim, view, reply), lag)
    ensures var s' := Apply(s, Take(claim, view, reply), lag);
            && s.pvcLog <= s'.pvcLog && |s'.pvcLog| > 0 && s'.names == s.names
            && VolumesKept(s.Pvcs(), s'.Pvcs()) && s.Pvcs().Keys == s'.Pvcs().Keys
            && (s'.activity == Idle || s'.activity == Creating(s.activity.pod, s.activity.claims + {claim}))
            && (s'.activity.Creating? ==> claim in s'.Pvcs() && s'.Pvcs()[claim].volume == s.pvcLog[view][claim].volume)
            && GrantingTo(s.Pvcs(), s'.Pvcs(), s.activity.pod, s.pvcLog[view][claim].volume, claim)
  {
    assert Precedes(s.pvcLog[view], s.Pvcs());
  }

  lemma {:induction false} MakeEffect(s: State, claim: string, volume: string, reply: Reply, lag: Time)
    requires Enabled(s, Make(claim, volume, reply), lag)
    ensures var s' := Apply(s, Make(claim, volume, reply), lag);
            && s.pvcLog <= s'.pvcLog && |s'.pvcLog| > 0 && s'.names == s.names
            && VolumesKept(s.Pvcs(), s'.Pvcs())
            && (if reply == Rejected then s'.Pvcs() == s.Pvcs()
                else s'.Pvcs().Keys == s.Pvcs().Keys + {claim} && s'.Pvcs()[claim].volume == volume)
            && s'.activity == (if reply == Done then Creating(s.activity.pod, s.activity.claims + {claim}) else Idle)
            && GrantingTo(s.Pvcs(), s'.Pvcs(), s.activity.pod, volume, claim)
  {
  }

  ghost function NamedOf(names: seq<string>, seen: Pvcs, v: string): set<string> {
    set c | c in names && c in seen && seen[c].volume == v
  }

  lemma {:induction false} NamedStep(names: seq<string>, seen: Pvcs, v: string)
    requires names != [] && names[0] !in names[1..] && names[0] in seen
    ensures |NamedOf(names, seen, v)| == |NamedOf(names[1..], seen, v)| + if seen[names[0]].volume == v then 1 else 0
  {
    assert names == [names[0]] + names[1..];
    assert NamedOf(names, seen, v) ==
           NamedOf(names[1..], seen, v) + if seen[names[0]].volume == v then {names[0]} else {};
  }

  ghost predicate Distinct(names: seq<string>) {
    forall i, j | 0 <= i < j < |names| :: names[i] != names[j]
  }

  ghost predicate Shows(claims: seq<Claim>, names: seq<string>, seen: Pvcs) {
    |claims| == |names| &&
    forall i | 0 <= i < |names| ::
      names[i] in seen && claims[i] == Claim(names[i], seen[names[i]].volume, seen[names[i]].promised)
  }

  lemma {:induction false} ShowsNothing(seen: Pvcs)
    ensures Shows([], [], seen)
  {
  }

  lemma {:induction false} ShowsMore(claims: seq<Claim>, names: seq<string>, i: nat, seen: Pvcs)
    requires i < |names| && Shows(claims, names[..i], seen) && Lists(names, seen.Keys)
    ensures names[i] in seen
    ensures Shows(claims + [Claim(names[i], seen[names[i]].volume, seen[names[i]].promised)], names[..i + 1], seen)
  {
    assert names[i] in names;
  }

  lemma {:induction false} ListedClaimsCounted(claims: seq<Claim>, names: seq<string>, seen: Pvcs, v: string)
    requires Shows(claims, names, seen) && Distinct(names)
    ensures ClaimsOf(claims, v) == |NamedOf(names, seen, v)|
  {
    if names == [] {
      assert NamedOf(names, seen, v) == {};
    } else {
      NamedStep(names, seen, v);
      ListedClaimsCounted(claims[1..], names[1..], seen, v);
    }
  }

  // The cache volumes among the mounts of a pod, in order.
  function CacheMounts(mounts: seq<string>, volumes: set<string>): seq<string> {
    if mounts == [] then []
    else (if mounts[0] in volumes then [mounts[0]] else []) + CacheMounts(mounts[1..], volumes)
  }

  /** No cache volume is mounted twice. */
  lemma {:induction false} CacheMountsFirst(v: string, mounts: seq<string>, volumes: set<string>)
    ensures CacheMounts([v], volumes) == if v in volumes then [v] else []
    ensures CacheMounts([v] + mounts, volumes) == CacheMounts([v], volumes) + CacheMounts(mounts, volumes)
  {
    assert ([v] + mounts)[1..] == mounts && [v][1..] == [];
  }

  lemma {:induction false} CacheMountsInOrder(a: seq<string>, b: seq<string>, v: string, volumes: set<string>)
    ensures CacheMounts([v], volumes) == if v in volumes then [v] else []
    ensures CacheMounts(a + b, volumes) == CacheMounts(a, volumes) + CacheMounts(b, volumes)
  {
    CacheMountsFirst(v, [], volumes);
    if a == [] {
      assert a + b == b;
    } else {
      var rest := a[1..];
      assert a == [a[0]] + rest && a + b == [a[0]] + (rest + b);
      CacheMountsFirst(a[0], rest, volumes);
      CacheMountsFirst(a[0], rest + b, volumes);
      CacheMountsInOrder(rest, b, v, volumes);
      hide *;
    }
  }

  ghost predicate OncePerPod(mounts: seq<string>, volumes: set<string>) {
    forall v :: Times(CacheMounts(mounts, volumes), v) <= 1
  }

  lemma {:induction false} NotMountedBefore(cache: seq<string>, k: nat)
    requires k < |cache| && Times(cache, cache[k]) <= 1
    ensures cache[k] !in cache[..k]
  {
    if k > 0 {
      assert cache[..k] == [cache[0]] + cache[1..][..k - 1];
      assert cache[1..][k - 1] == cache[k];
      NotMountedNotCounted(cache[1..], cache[k]);
      assert cache[k] in cache[1..];
      NotMountedBefore(cache[1..], k - 1);
    }
  }

  // What is to be done for one mount, if the limit allows it.
  ghost function NextAct(v: string, claims: seq<Claim>, templates: seq<Template>, volumes: set<string>): Option<Act> {
    var i := FirstFree(claims, v);
    if i < |claims| then Some(Reuse(i))
    else if ClaimsOf(claims, v) >= Limit(templates, volumes, v) then None
    else Some(Create(v))
  }

  // What happened to the claims of the cluster while one mount was dealt with.
  ghost predicate Did(before: Pvcs, after: Pvcs, act: Option<Act>) {
    VolumesKept(before, after) &&
    match act
    case Some(Create(v)) =>
      exists c | c in after :: c !in before && after.Keys == before.Keys + {c} && after[c].volume == v
    case _ => before.Keys == after.Keys
  }

  function Listed(act: Option<Act>): seq<Act> {
    if act.Some? then [act.value] else []
  }

  lemma {:induction false} GrewByAct(before: Pvcs, middle: Pvcs, after: Pvcs, acts: seq<Act>, act: Option<Act>)
    requires GrewBy(before, middle, acts) && Did(middle, after, act)
    ensures GrewBy(before, after, acts + Listed(act)) && VolumesKept(middle, after)
  {
    hide GrewBy;
    match act {
      case None =>
        UnchangedClaims(before, middle, after, acts);
        assert acts + Listed(act) == acts;
      case Some(Reuse(i)) =>
        GrewByReuse(before, middle, after, acts, i);
      case Some(Create(v)) =>
        var c :| c in after && c !in middle && after.Keys == middle.Keys + {c} && after[c].volume == v;
        GrewByCreate(before, middle, after, acts, c);
    }
  }

  // The claims granted for the mounts, one each.
  ghost predicate Granted(granted: seq<string>, mounts: seq<string>, pvcs: Pvcs) {
    |granted| == |mounts| &&
    forall i | 0 <= i < |granted| :: granted[i] in pvcs && pvcs[granted[i]].volume == mounts[i]
  }

  class VolumeOperator {
    var st: State
    const lag: Time
    ghost var steps: seq<Step>
    // How many calls have failed so far.
    ghost var failures: nat

    ghost predicate Valid()
      reads this
    {
      lag <= Disappeared.GRACE && IsRun(Empty, steps, lag) && st == End(Empty, steps, lag) && Invariant(st)
    }

    constructor (lag: Time)
      requires lag <= Disappeared.GRACE
      ensures Valid() && st == Empty && this.lag == lag
    {
      this.lag, st, steps, failures := lag, Empty, [], 0;
    }

    method Perform(step: Step)
      requires Valid() && Enabled(st, step, lag)
      modifies this`st, this`steps
      ensures Valid() && st == Apply(old(st), step, lag)
    {
      RunExtends(Empty, steps, step, lag);
      steps := steps + [step];
      RunKeepsInvariant(Empty, steps, lag);
      hide *;
      st := Apply(st, step, lag);
    }

    // Any number of steps that are not the operator's. A pod list in use is not allowed to get too old.
    method Interfere(podView: Option<nat>)
      requires Valid()
      requires podView.Some? ==> Recent(st, podView.value, lag)
      modifies this`st, this`steps
      ensures Valid() && Drift(old(st), st)
      ensures podView.Some? ==> Recent(st, podView.value, lag)
    {
      DriftStarts(st);
      hide Invariant, IsRun, End, Drift;
      var n: int := *;
      while n > 0
        invariant Valid() && Drift(old(st), st)
        invariant podView.Some? ==> Recent(st, podView.value, lag)
      {
        var step: Step := *;
        if IsOutside(step) && Enabled(st, step, lag) {
          if podView.None? || Recent(Apply(st, step, lag), podView.value, lag) {
            OutsideStepDrifts(old(st), st, step, lag);
            Perform(step);
          }
        }
        n := n - 1;
      }
    }

    // The claims as some past list shows them, sorted by name. Whether the call succeeds is up to the caller.
    method ListPvcs() returns (view: nat, claims: seq<Claim>, ghost names: seq<string>)
      requires Valid()
      ensures view < |st.pvcLog| && Lists(names, st.pvcLog[view].Keys) && Sorted(names)
      ensures Shows(claims, names, st.pvcLog[view]) && InNameOrder(claims)
    {
      DriftStarts(st);
      hide Invariant, IsRun, End, Sorted, Drift, Shows, Lists;
      var pick: int := *;
      view := if 0 <= pick < |st.pvcLog| then pick else |st.pvcLog| - 1;
      var seen := st.pvcLog[view];
      var listing := SortedListing(seen.Keys);
      names := listing;
      claims := [];
      assert Shows([], listing[..0], seen) by { ShowsNothing(seen); }
      for i := 0 to |listing|
        invariant Shows(claims, listing[..i], seen)
      {
        ShowsMore(claims, listing, i, seen);
        claims := claims + [Claim(listing[i], seen[listing[i]].volume, seen[listing[i]].promised)];
      }
      assert listing[..|listing|] == listing;
      ShownIsListing(claims, names, seen);
    }

    // A call other than those on claims and pods has failed: the creation is given up.
    method Abort()
      requires Valid() && st.activity.Creating?
      modifies this
      ensures Valid() && st == old(st).(activity := Idle) && failures == old(failures) + 1
    {
      DriftStarts(st);
      hide IsRun, End, Invariant, Apply, Drift;
      GiveUpEffect(st, lag);
      Perform(GiveUp);
      failures := failures + 1;
    }

    // Promises a listed claim to the pod being created.
    method PromiseClaim(claim: string, view: nat) returns (ok: bool)
      requires Valid() && st.activity.Creating? && view < |st.pvcLog|
      requires claim in st.pvcLog[view] && st.pvcLog[view][claim].promised.None?
      modifies this
      ensures Valid() && old(st.pvcLog) <= st.pvcLog && st.names == old(st.names)
      ensures |old(st.pvcLog)| > 0 && VolumesKept(old(st.Pvcs()), st.Pvcs()) && old(st.Pvcs()).Keys == st.Pvcs().Keys
      ensures ok ==> claim in st.Pvcs() && st.Pvcs()[claim].volume == old(st.pvcLog)[view][claim].volume
      ensures ok ==> st.activity == Creating(old(st.activity.pod), old(st.activity.claims) + {claim})
      ensures !ok ==> st.activity == Idle
      ensures Granting(old(st.Pvcs()), st.Pvcs(), old(st.activity.pod), old(st.pvcLog)[view][claim].volume)
      ensures failures == old(failures) + if ok then 0 else 1
    {
      hide IsRun, End, Invariant, Apply, Drift, GrantingTo, Granting;
      Interfere(None);
      DriftKeepsVolumes(old(st), st);
      var reply: Reply := *;
      SeenStays(st, view, claim);
      DriftStarts(st);
      TakeEffect(st, claim, view, reply, lag);
      GrantingAfterDrift(old(st), st, Apply(st, Take(claim, view, reply), lag).Pvcs(), st.activity.pod,
                         st.pvcLog[view][claim].volume, claim);
      Perform(Take(claim, view, reply));
      ok := st.activity.Creating?;
      failures := failures + if ok then 0 else 1;
    }

    // Creates a claim that is promised to the pod from the start.
    method MakeClaim(volume: string) returns (ok: bool, claim: string, ghost act: Option<Act>)
      requires Valid() && st.activity.Creating?
      modifies this
      ensures Valid() && old(st.pvcLog) <= st.pvcLog && st.names == old(st.names)
      ensures |old(st.pvcLog)| > 0 && Did(old(st.Pvcs()), st.Pvcs(), act)
      ensures act.Some? ==> act == Some(Create(volume))
      ensures ok ==> act.Some? && claim in st.Pvcs() && st.Pvcs()[claim].volume == volume
      ensures ok ==> st.activity == Creating(old(st.activity.pod), old(st.activity.claims) + {claim})
      ensures !ok ==> st.activity == Idle
      ensures Granting(old(st.Pvcs()), st.Pvcs(), old(st.activity.pod), volume)
      ensures failures == old(failures) + if ok then 0 else 1
    {
      hide IsRun, End, Invariant, Apply, Drift, GrantingTo, Granting;
      claim := *;
      act := None;
      Interfere(None);
      DriftKeepsVolumes(old(st), st);
      NothingGranted(old(st), st, st.activity.pod, volume);
      DriftStarts(st);
      var storageParses: bool := *;
      if !storageParses || claim in st.Pvcs() {
        Abort();
        return false, claim, None;
      }
      var reply: Reply := *;
      MakeEffect(st, claim, volume, reply, lag);
      GrantingAfterDrift(old(st), st, Apply(st, Make(claim, volume, reply), lag).Pvcs(), st.activity.pod, volume, claim);
      Perform(Make(claim, volume, reply));
      ok := reply == Done;
      failures := failures + if ok then 0 else 1;
      act := if reply == Rejected then None else Some(Create(volume));
    }

    // Finds or makes the claim for one mount of a cache volume.
    method ClaimFor(v: string, view: nat, claims: seq<Claim>, templates: seq<Template>, volumes: set<string>)
      returns (r: Assignment, claim: string, index: nat, ghost act: Option<Act>)
      requires Valid() && st.activity.Creating? && view < |st.pvcLog| && Listing(claims, st.pvcLog[view])
      modifies this
      ensures Valid() && old(st.pvcLog) <= st.pvcLog && st.names == old(st.names)
      ensures |old(st.pvcLog)| > 0 && Did(old(st.Pvcs()), st.Pvcs(), act)
      ensures act.Some? ==> act == NextAct(v, claims, templates, volumes)
      ensures r.Exhausted? ==> r.volume == v && NextAct(v, claims, templates, volumes).None?
      ensures index == FirstFree(claims, v)
      ensures r.Assigned? && (exists i | 0 <= i < |claims| :: claims[i].volume == v && claims[i].promised.None?) ==>
                LeastFree(claims, v, claim)
      ensures r.Assigned? ==> act.Some? && claim in st.Pvcs() && st.Pvcs()[claim].volume == v
      ensures r.Assigned? ==> st.activity == Creating(old(st.activity.pod), old(st.activity.claims) + {claim})
      ensures !r.Assigned? ==> st.activity == Idle
      ensures Granting(old(st.Pvcs()), st.Pvcs(), old(st.activity.pod), v)
      ensures failures == old(failures) + if r.ApiFailure? then 1 else 0
    {
      DriftStarts(st);
      NothingGranted(st, st, st.activity.pod, v);
      hide IsRun, End, Invariant, Apply, Limit, ClaimsOf, Drift, GrantingTo, Granting;
      var ok: bool;
      index := GetUnpromisedPvc(claims, v);
      if index < |claims| {
        FirstFreeIsLeast(claims, v);
        claim, act := claims[index].name, Some(Reuse(index));
        ok := PromiseClaim(claim, view);
      } else {
        var exceeded := IsPvcLimitExceeded(templates, volumes, v, claims);
        if exceeded {
          GiveUpEffect(st, lag);
          Perform(GiveUp);
          return Exhausted(v), "", index, None;
        }
        ok, claim, act := MakeClaim(v);
      }
      r := if ok then Assigned else ApiFailure;
    }

    /**
     Grants a claim for every mount of a cache volume of the pod being created. What is done follows the
     plan for some past list of the claims, up to the first call that fails.
     */
    method AssignOrCreatePvcs(mounts: seq<string>, templates: seq<Template>, volumes: set<string>)
      returns (r: Assignment, granted: seq<string>, ghost run: Allocation)
      requires Valid() && st.activity.Creating? && st.activity.claims == {}
      modifies this
      ensures Valid() && old(st.pvcLog) <= st.pvcLog && |old(st.pvcLog)| > 0
      ensures run.view < |old(st.pvcLog)| && st.names == old(st.names) && InNameOrder(run.claims)
      ensures Shows(run.claims, run.names, old(st.pvcLog)[run.view]) && Lists(run.names, old(st.pvcLog)[run.view].Keys)
      ensures GrewBy(old(st.Pvcs()), st.Pvcs(), run.acts)
      ensures Follows(r, run.acts, PlanFor(CacheMounts(mounts, volumes), run.claims, old(st.activity.pod), templates, volumes))
      ensures r.Assigned? ==> Granted(granted, CacheMounts(mounts, volumes), st.Pvcs())
      ensures r.Assigned? ==> st.activity == Creating(old(st.activity.pod), set g | g in granted)
      ensures !r.Assigned? ==> st.activity == Idle
      ensures OncePerPod(mounts, volumes) && Orderly(old(st.Pvcs()), old(st.activity.pod), []) ==>
                Orderly(st.Pvcs(), old(st.activity.pod), CacheMounts(mounts, volumes))
      ensures GrantsOnly(old(st.Pvcs()), st.Pvcs(), old(st.activity.pod), CacheMounts(mounts, volumes))
      ensures failures == old(failures) + if r.ApiFailure? then 1 else 0
    {
      hide IsRun, End, Invariant, Apply, Drift, PlanFor, NextAct, FirstFree, CacheMounts, OncePerPod, Did, Granting;
      hide Lists, Sorted, Shows, Listing, GrewBy, Granted, Orderly, GrantsOnly, VolumesKept, Underway;
      DriftStarts(st);
      var pod := st.activity.pod;
      var view, claims;
      ghost var names;
      view, claims, names := ListPvcs();
      ghost var listed := claims;
      run := Allocation(view, names, listed, []);
      ghost var cache := CacheMounts(mounts, volumes);
      ghost var task := Task(pod, cache, templates, volumes, st.Pvcs(), st.pvcLog[view],
                             PlanFor(cache, claims, pod, templates, volumes),
                             OncePerPod(mounts, volumes) && Orderly(st.Pvcs(), pod, []));
      UnderwayStarts(task, claims, names);
      // Without cache volumes nothing is listed, and nothing of the list is used.
      var answered: bool := *;
      if volumes != {} && !answered {
        UnderwayAborted(task, st.Pvcs(), claims);
        Abort();
        return ApiFailure, [], run;
      }
      ghost var acts;
      r, granted, acts := GrantAll(mounts, templates, volumes, view, claims, task);
      run := run.(acts := acts);
    }

    // Grants the claims for the mounts, in order, from a list of the claims.
    method GrantAll(mounts: seq<string>, templates: seq<Template>, volumes: set<string>, view: nat, listed: seq<Claim>,
                    ghost task: Task)
      returns (r: Assignment, granted: seq<string>, ghost acts: seq<Act>)
      requires Valid() && st.activity.Creating? && st.activity.claims == {} && view < |st.pvcLog|
      requires task.pod == st.activity.pod && task.cache == CacheMounts(mounts, volumes)
      requires task.templates == templates && task.volumes == volumes && task.seen == st.pvcLog[view]
      requires (task.once ==> OncePerPod(mounts, volumes)) && Underway(task, st.Pvcs(), [], listed, [])
      modifies this
      ensures Valid() && old(st.pvcLog) <= st.pvcLog && |st.pvcLog| > 0 && st.names == old(st.names)
      ensures GrewBy(task.first, st.Pvcs(), acts) && GrantsOnly(task.first, st.Pvcs(), task.pod, task.cache)
      ensures task.once ==> Orderly(st.Pvcs(), task.pod, task.cache)
      ensures Follows(r, acts, task.whole)
      ensures r.Assigned? ==> Granted(granted, task.cache, st.Pvcs())
      ensures r.Assigned? ==> st.activity == Creating(task.pod, set g | g in granted)
      ensures !r.Assigned? ==> st.activity == Idle
      ensures failures == old(failures) + if r.ApiFailure? then 1 else 0
    {
      hide IsRun, End, Invariant, Apply, Drift, PlanFor, NextAct, FirstFree, CacheMounts, OncePerPod, Did, Granting;
      hide Lists, Sorted, Shows, Listing, GrewBy, Granted, Orderly, GrantsOnly, VolumesKept, Underway;
      var pod, claims := st.activity.pod, listed;
      ghost var cache := task.cache;
      acts := [];
      var i := 0;
      r, granted := Assigned, [];
      assert mounts[0..] == mounts && cache[0..] == cache;
      while i < |mounts|
        invariant i <= |mounts| && |granted| <= |cache| && cache[|granted|..] == CacheMounts(mounts[i..], volumes)
        invariant Valid() && old(st.pvcLog) <= st.pvcLog && |st.pvcLog| > 0 && st.names == old(st.names)
        invariant r.Assigned? && st.activity == Creating(pod, set g | g in granted) && failures == old(failures)
        invariant Underway(task, st.Pvcs(), granted, claims, acts)
      {
        ghost var before := st.Pvcs();
        CacheMountsStep(mounts, volumes, i, cache, |granted|);
        if mounts[i] in volumes {
          UnderwayListing(task, before, granted, claims, acts);
          var claim, index;
          ghost var act;
          r, claim, index, act := ClaimFor(mounts[i], view, claims, templates, volumes);
          if task.once {
            MountedOnce(mounts, volumes, |granted|);
          }
          UnderwayMore(task, before, st.Pvcs(), granted, claims, acts, act, claim);
          acts := acts + Listed(act);
          if !r.Assigned? {
            return;
          }
          granted := granted + [claim];
          if index < |claims| {
            claims := Promise(claims, index, pod);
          }
        }
        i := i + 1;
      }
      UnderwayEnds(task, mounts, st.Pvcs(), granted, claims, acts);
    }

    // Looks at one listed promise, and withdraws it if its pod is gone for good.
    method ConsiderClaim(claim: Claim, view: nat, podView: nat) returns (ok: bool)
      requires Valid() && st.activity == Idle && Recent(st, podView, lag) && view < |st.pvcLog|
      requires claim.name in st.pvcLog[view] && claim.promised.Some?
      requires claim == Claim(claim.name, st.pvcLog[view][claim.name].volume, st.pvcLog[view][claim.name].promised)
      modifies this
      ensures Valid() && st.activity == Idle && Recent(st, podView, lag)
      ensures Proceeded(old(st), st)
      ensures ok && MustRelease(claim, st.podLog[podView].pods, old(st.misses), old(st.now), st.now) ==>
                claim.name in st.Pvcs() && st.Pvcs()[claim.name].promised.None?
      ensures ok && claim.promised.value !in st.podLog[podView].pods ==>
                || (claim.name in st.Pvcs() && st.Pvcs()[claim.name].promised.None?)
                || KnownMissing(claim.promised.value, st.misses, old(st.now))
      ensures ok && ListedAsEnded(st.podLog[podView].pods, claim.promised.value) ==>
                claim.name in st.Pvcs() && st.Pvcs()[claim.name].promised.None?
      ensures ListedAsLive(st.podLog[podView].pods, claim.promised.value) ==> ok && st == old(st)
      ensures |old(st.pvcLog)| > 0 && OthersKept(old(st.Pvcs()), st.Pvcs(), claim.name)
      ensures failures == old(failures) + if ok then 0 else 1
    {
      hide IsRun, End, Invariant, Apply, Drift, MustRelease, Remembers, Weakened, Proceeded, KnownMissing;
      hide ListedAsEnded, ListedAsLive, OthersKept;
      DriftStarts(st);
      CheckEffect(st, claim.name, view, podView, lag);
      LiveIsLeft(st, claim.name, view, podView, lag);
      Perform(Check(claim.name, view, podView));
      ProceededByCheck(old(st), st);
      NothingLost(st.Pvcs(), claim.name);
      if ListedAsEnded(st.podLog[podView].pods, claim.promised.value) {
        EndedMustBeReleased(claim, st.podLog[podView].pods, old(st.misses), old(st.now), st.now);
      }
      ok := true;
      if st.activity.Releasing? {
        ghost var checked := st;
        ok := ReleaseClaim(claim.name, view, podView);
        ProceededTwice(old(st), checked, st);
      }
    }

    // Withdraws the promise that was looked at, if its claim is still at that version.
    method ReleaseClaim(claim: string, ghost view: nat, podView: nat) returns (ok: bool)
      requires Valid() && st.activity.Releasing? && st.activity.claim == claim && Recent(st, podView, lag)
      requires view < |st.pvcLog| && claim in st.pvcLog[view]
      modifies this
      ensures Valid() && st.activity == Idle && Recent(st, podView, lag)
      ensures Proceeded(old(st), st) && |old(st.pvcLog)| > 0 && |st.pvcLog| > 0 && old(st.podLog) <= st.podLog
      ensures OthersKept(old(st.Pvcs()), st.Pvcs(), claim)
      ensures ok ==> claim in st.Pvcs() && st.Pvcs()[claim].promised.None?
      ensures failures == old(failures) + if ok then 0 else 1
    {
      hide IsRun, End, Invariant, Apply, Drift, Remembers, Weakened, Proceeded, OthersKept;
      DriftStarts(st);
      ProceededByNothing(st);
      Interfere(Some(podView));
      ProceededByDrift(old(st), old(st), st);
      var reply: Reply := *;
      ReleasingIsListed(st, claim, view, st.activity.seen, reply, lag);
      ReleaseEffect(st, reply, lag);
      OthersKeptSince(old(st), st, Apply(st, Release(reply), lag).Pvcs(), claim);
      ok := reply == Done && st.Pvcs()[claim].version == st.activity.seen.version;
      ProceededByRelease(old(st), st, Apply(st, Release(reply), lag));
      Perform(Release(reply));
      failures := failures + if ok then 0 else 1;
    }

    /**
     Withdraws the promises to pods that are gone for good, working on some past list of the claims and one
     of the pods that stays recent. Promises are withdrawn from dead pods only, and a pass without a failed
     call withdraws all it has to.
     */
    method DeletePromisedAnnotationFromPvcs() returns (ok: bool, ghost pass: Inspection)
      requires Valid() && st.activity == Idle
      modifies this
      ensures Valid() && st.activity == Idle && Proceeded(old(st), st)
      ensures pass.view < |st.pvcLog| && pass.podView < |st.podLog|
      ensures Shows(pass.claims, pass.names, st.pvcLog[pass.view]) && Lists(pass.names, st.pvcLog[pass.view].Keys)
      ensures ok ==> AllReleased(pass.claims, |pass.claims|, st.podLog[pass.podView].pods, old(st), st)
      ensures ok ==> forall i | 0 <= i < |pass.claims| && pass.claims[i].promised.Some?
                                && ListedAsEnded(st.podLog[pass.podView].pods, pass.claims[i].promised.value) ::
                       Unpromised(pass.claims[i], st.Pvcs())
      ensures |old(st.pvcLog)| > 0
      ensures OnlyDue(pass.claims, |pass.claims|, st.podLog[pass.podView].pods, old(st.Pvcs()), st.Pvcs())
      ensures failures == old(failures) + if ok then 0 else 1
    {
      hide IsRun, End, Invariant, Apply, Drift, Shows, Lists, Sorted, Weakened, Proceeded, AllReleased;
      hide ListedAsEnded, ListedAsLive, OthersKept, OnlyDue, MustRelease, KnownMissing;
      DriftStarts(st);
      ProceededByNothing(st);
      var view, claims;
      ghost var names;
      view, claims, names := ListPvcs();
      Interfere(None);
      ProceededByDrift(old(st), old(st), st);
      DriftStarts(st);
      var podView: int := *;
      if !(0 <= podView && Recent(st, podView, lag)) {
        podView := |st.podLog| - 1;
      }
      pass := Inspection(view, names, claims, podView);
      ghost var first := old(st.Pvcs());
      ghost var seen, listed := st.pvcLog[view], st.podLog[podView].pods;
      NothingDue(claims, listed, old(st), st);
      ok := *;
      if !ok {
        OnlyDueSoFar(claims, 0, listed, first, st.Pvcs());
        failures := failures + 1;
        return;
      }
      NothingReleased(claims, listed, old(st), st);
      for i := 0 to |claims|
        invariant Valid() && st.activity == Idle && Proceeded(old(st), st) && Recent(st, podView, lag)
        invariant view < |st.pvcLog| && st.pvcLog[view] == seen && st.podLog[podView].pods == listed
        invariant AllReleased(claims, i, listed, old(st), st) && OnlyDue(claims, i, listed, first, st.Pvcs())
        invariant ok && failures == old(failures)
      {
        ghost var before := st;
        ShownClaim(claims, names, seen, i);
        if claims[i].promised.Some? {
          ok := ConsiderClaim(claims[i], view, podView);
          ProceededTwice(old(st), before, st);
          OneMoreDue(claims, i, listed, first, before.Pvcs(), st.Pvcs());
          if !ok {
            OnlyDueSoFar(claims, i + 1, listed, first, st.Pvcs());
            return;
          }
        } else {
          DriftStarts(st);
          ProceededByNothing(st);
          NothingLost(st.Pvcs(), claims[i].name);
          OneMoreDue(claims, i, listed, first, before.Pvcs(), st.Pvcs());
        }
        OneMoreReleased(claims, i, listed, old(st), before, st);
      }
      EndedAreReleased(claims, listed, old(st), st);
    }

    /** Creates a pod with a fresh name: its claims first, then the pod that mounts them. */
    method ProvisionPod(pod: string, mounts: seq<string>, templates: seq<Template>, volumes: set<string>)
      returns (r: Assignment, granted: seq<string>, ghost run: Allocation)
      requires Valid() && st.activity == Idle && pod !in st.names
      modifies this
      ensures Valid() && st.activity == Idle && |old(st.pvcLog)| > 0 && run.view < |old(st.pvcLog)|
      ensures Allocated(old(st.pvcLog)[run.view], old(st.Pvcs()), st.Pvcs(), mounts, pod, templates, volumes, run)
      ensures r.Assigned? ==>
                && Granted(granted, CacheMounts(mounts, volumes), st.Pvcs())
                && pod in st.Pods() && st.Pods()[pod] == Holder(Pending, set g | g in granted)
                && Held(st.Pvcs(), (set g | g in granted), pod)
      ensures Follows(r, run.acts, PlanFor(CacheMounts(mounts, volumes), run.claims, pod, templates, volumes))
      ensures OncePerPod(mounts, volumes) && Single(old(st.Pvcs())) ==> Single(st.Pvcs())
      ensures GrantsOnly(old(st.Pvcs()), st.Pvcs(), pod, CacheMounts(mounts, volumes))
      ensures st.names == old(st.names) + {pod}
      ensures failures == old(failures) + if r.ApiFailure? then 1 else 0
    {
      hide IsRun, End, Invariant, GrewBy, PlanFor, Shows, Lists, Granted, CacheMounts, Orderly, OncePerPod, Single, GrantsOnly;
      hide Follows, Allocated, Drift, SamePromises, Held;
      DriftStarts(st);
      FreshIsOrderly(st, pod);
      Perform(Begin(pod));
      r, granted, run := AssignOrCreatePvcs(mounts, templates, volumes);
      IsAllocated(old(st.pvcLog)[run.view], old(st.Pvcs()), st.Pvcs(), mounts, pod, templates, volumes, run, r);
      if Orderly(st.Pvcs(), pod, CacheMounts(mounts, volumes)) {
        OrderlyIsSingle(st.Pvcs(), pod, CacheMounts(mounts, volumes));
      }
      if r.Assigned? {
        ghost var before := st.Pvcs();
        var created := LaunchPod(pod, set g | g in granted);
        AllocatedStays(old(st.pvcLog)[run.view], old(st.Pvcs()), before, st.Pvcs(), mounts, pod, templates, volumes, run);
        GrantedStays(granted, before, st.Pvcs(), old(st.Pvcs()), pod, CacheMounts(mounts, volumes));
        if !created {
          FollowsFailure(run.acts, PlanFor(CacheMounts(mounts, volumes), run.claims, pod, templates, volumes));
          r := ApiFailure;
        }
      }
    }

    // Creates the pod for which the claims were granted.
    method LaunchPod(pod: string, ghost claims: set<string>) returns (created: bool)
      requires Valid() && st.activity == Creating(pod, claims)
      modifies this
      ensures Valid() && st.activity == Idle && |old(st.pvcLog)| > 0 && |st.pvcLog| > 0 && |st.podLog| > 0
      ensures SamePromises(old(st.Pvcs()), st.Pvcs()) && st.names == old(st.names)
      ensures created ==>
                pod in st.Pods() && st.Pods()[pod] == Holder(Pending, claims) && Held(st.Pvcs(), claims, pod)
      ensures failures == old(failures) + if created then 0 else 1
    {
      hide IsRun, End, Invariant, SamePromises, NoRevival;
      DriftStarts(st);
      Interfere(None);
      var reply: Reply := *;
      ghost var creating := st;
      Perform(Launch(reply));
      created := reply == Done;
      if created {
        LaunchedHolds(creating, st, pod);
      } else {
        failures := failures + 1;
      }
    }
  }

  datatype Inspection = Inspection(view: nat, names: seq<string>, claims: seq<Claim>, podView: nat)

  ghost predicate Unpromised(claim: Claim, pvcs: Pvcs) {
    claim.name in pvcs && pvcs[claim.name].promised.None?
  }

  /**
   The first n listed claims were dealt with: those that had to be released are, and the pods of the others
   that are missing are now known as such.
   */
  ghost predicate AllReleased(claims: seq<Claim>, n: nat, listed: Pods, first: State, last: State)
    requires n <= |claims| && |last.pvcLog| > 0
  {
    && (forall i | 0 <= i < n && MustRelease(claims[i], listed, first.misses, first.now, last.now) ::
          Unpromised(claims[i], last.Pvcs()))
    && (last.now - first.now <= Disappeared.RETENTION - Disappeared.GRACE ==>
          forall i | 0 <= i < n && claims[i].promised.Some? && claims[i].promised.value !in listed ::
            Unpromised(claims[i], last.Pvcs()) || KnownMissing(claims[i].promised.value, last.misses, first.now))
  }

  // A listed promise that may be withdrawn: the pod is not listed as one that still runs.
  predicate MayRelease(claim: Claim, c: string, listed: Pods) {
    claim.name == c && claim.promised.Some? && !ListedAsLive(listed, claim.promised.value)
  }

  /** The promises that changed are among the first n listed ones, and their pods are not listed as live. */
  ghost predicate OnlyDue(claims: seq<Claim>, n: nat, listed: Pods, before: Pvcs, after: Pvcs)
    requires n <= |claims|
  {
    forall c | c in before :: c in after &&
      (after[c].promised == before[c].promised || exists i | 0 <= i < n :: MayRelease(claims[i], c, listed))
  }

  lemma {:induction false} NothingDue(claims: seq<Claim>, listed: Pods, a: State, b: State)
    requires Drift(a, b)
    ensures |a.pvcLog| > 0 && |b.pvcLog| > 0 && OnlyDue(claims, 0, listed, a.Pvcs(), b.Pvcs())
  {
  }

  lemma {:induction false} OnlyDueSoFar(claims: seq<Claim>, n: nat, listed: Pods, before: Pvcs, after: Pvcs)
    requires n <= |claims| && OnlyDue(claims, n, listed, before, after)
    ensures OnlyDue(claims, |claims|, listed, before, after)
  {
  }

  lemma {:induction false} OneMoreDue(claims: seq<Claim>, i: nat, listed: Pods, first: Pvcs, before: Pvcs, after: Pvcs)
    requires i < |claims| && OnlyDue(claims, i, listed, first, before)
    requires OthersKept(before, after, claims[i].name)
    requires claims[i].promised.None? || ListedAsLive(listed, claims[i].promised.value) ==> after == before
    ensures OnlyDue(claims, i + 1, listed, first, after)
  {
    forall c | c in first && after[c].promised != first[c].promised
      ensures exists k | 0 <= k < i + 1 :: MayRelease(claims[k], c, listed)
    {
      if c == claims[i].name && after != before {
        assert MayRelease(claims[i], c, listed);
      } else {
        var k :| 0 <= k < i && MayRelease(claims[k], c, listed);
      }
    }
  }

  lemma {:induction false} EndedAreReleased(claims: seq<Claim>, listed: Pods, first: State, last: State)
    requires |last.pvcLog| > 0 && AllReleased(claims, |claims|, listed, first, last)
    ensures forall i | 0 <= i < |claims| && claims[i].promised.Some? && ListedAsEnded(listed, claims[i].promised.value) ::
              Unpromised(claims[i], last.Pvcs())
  {
    hide MustRelease, ListedAsEnded;
    forall i | 0 <= i < |claims| && claims[i].promised.Some? && ListedAsEnded(listed, claims[i].promised.value)
      ensures Unpromised(claims[i], last.Pvcs())
    {
      EndedMustBeReleased(claims[i], listed, first.misses, first.now, last.now);
    }
  }

  lemma {:induction false} NothingReleased(claims: seq<Claim>, listed: Pods, first: State, last: State)
    requires |last.pvcLog| > 0
    ensures AllReleased(claims, 0, listed, first, last)
  {
  }

  lemma {:induction false} ShownClaim(claims: seq<Claim>, names: seq<string>, seen: Pvcs, i: nat)
    requires Shows(claims, names, seen) && i < |claims|
    ensures claims[i].name in seen
    ensures claims[i] == Claim(claims[i].name, seen[claims[i].name].volume, seen[claims[i].name].promised)
  {
  }

  lemma {:induction false} OneMoreReleased(claims: seq<Claim>, i: nat, listed: Pods, first: State, a: State, b: State)
    requires i < |claims| && |a.pvcLog| > 0 && |b.pvcLog| > 0 && Proceeded(first, a) && Proceeded(a, b)
    requires AllReleased(claims, i, listed, first, a)
    requires claims[i].promised.Some? ==>
               && (MustRelease(claims[i], listed, a.misses, a.now, b.now) ==> Unpromised(claims[i], b.Pvcs()))
               && (claims[i].promised.value !in listed ==>
                   Unpromised(claims[i], b.Pvcs()) || KnownMissing(claims[i].promised.value, b.misses, a.now))
    ensures AllReleased(claims, i + 1, listed, first, b)
  {
    StillReleased(claims, i, listed, first, a, b);
    hide Weakened;
  }

  lemma {:induction false} StillReleased(claims: seq<Claim>, n: nat, listed: Pods, first: State, a: State, b: State)
    requires n <= |claims| && |a.pvcLog| > 0 && |b.pvcLog| > 0 && Proceeded(first, a) && Proceeded(a, b)
    requires AllReleased(claims, n, listed, first, a)
    ensures AllReleased(claims, n, listed, first, b)
  {
  }

  lemma {:induction false} ProceededByNothing(a: State)
    requires Invariant(a)
    ensures |a.pvcLog| > 0 && |a.podLog| > 0 && Proceeded(a, a)
  {
  }

  lemma {:induction false} ProceededTwice(a: State, b: State, c: State)
    requires Proceeded(a, b) && Proceeded(b, c)
    ensures Proceeded(a, c) && b.pvcLog <= c.pvcLog && b.podLog <= c.podLog
  {
    WeakenedTwice(a.Pvcs(), b.Pvcs(), c.Pvcs(), b.Pods(), c.Pods());
    RemembersTwice(a.misses, b.misses, c.misses, b.now, c.now);
    hide Weakened, Remembers;
  }

  lemma {:induction false} FollowsFailure(acts: seq<Act>, plan: Plan)
    requires Follows(Assigned, acts, plan)
    ensures Follows(ApiFailure, acts, plan)
  {
  }

  lemma {:induction false} IsAllocated(seen: Pvcs, before: Pvcs, after: Pvcs, mounts: seq<string>, pod: string,
                                       templates: seq<Template>, volumes: set<string>, run: Allocation, r: Assignment)
    requires Shows(run.claims, run.names, seen) && Lists(run.names, seen.Keys) && GrewBy(before, after, run.acts)
    requires Follows(r, run.acts, PlanFor(CacheMounts(mounts, volumes), run.claims, pod, templates, volumes))
    ensures Allocated(seen, before, after, mounts, pod, templates, volumes, run)
  {
  }

  // Nothing of this changes while the operator waits before it creates the pod.
  lemma {:induction false} AllocatedStays(seen: Pvcs, first: Pvcs, now: Pvcs, later: Pvcs, mounts: seq<string>, pod: string,
                                          templates: seq<Template>, volumes: set<string>, run: Allocation)
    requires SamePromises(now, later) && Allocated(seen, first, now, mounts, pod, templates, volumes, run)
    ensures Allocated(seen, first, later, mounts, pod, templates, volumes, run)
  {
    assert VolumesKept(now, later);
    hide SamePromises, GrewBy, Shows, Lists, VolumesKept, PlanFor;
    UnchangedClaims(first, now, later, run.acts);
  }

  lemma {:induction false} GrantedStays(granted: seq<string>, now: Pvcs, later: Pvcs, first: Pvcs, pod: string,
                                        cache: seq<string>)
    requires SamePromises(now, later) && Granted(granted, cache, now) && GrantsOnly(first, now, pod, cache)
    ensures Granted(granted, cache, later) && GrantsOnly(first, later, pod, cache)
    ensures Single(now) ==> Single(later)
  {
  }

  lemma {:induction false} FreshIsOrderly(s: State, pod: string)
    requires Invariant(s) && pod !in s.names
    ensures Single(s.Pvcs()) ==> Orderly(s.Pvcs(), pod, [])
  {
    assert Promisees(s.Pvcs(), s.names);
  }

  lemma {:induction false} OrderlyIsSingle(pvcs: Pvcs, pod: string, done: seq<string>)
    requires Orderly(pvcs, pod, done)
    ensures Single(pvcs)
  {
  }

  lemma {:induction false} LaunchedHolds(a: State, b: State, pod: string)
    requires Invariant(a) && Invariant(b) && a.activity.Creating? && a.activity.pod == pod
    requires b == a.WithPods(a.Pods()[pod := Holder(Pending, a.activity.claims)]).(activity := Idle)
    ensures pod in b.Pods() && b.Pods()[pod] == Holder(Pending, a.activity.claims)
    ensures Held(b.Pvcs(), a.activity.claims, pod)
  {
  }

  // What a pass that withdraws promises has done up to some point.
  ghost predicate Proceeded(a: State, b: State) {
    && |a.pvcLog| > 0 && |a.podLog| > 0 && a.pvcLog <= b.pvcLog && a.podLog <= b.podLog
    && b.names == a.names && a.now <= b.now
    && Weakened(a.Pvcs(), b.Pvcs(), b.Pods()) && NoRevival(a.Pods(), b.Pods())
    && Remembers(a.misses, b.misses, b.now)
  }

  lemma {:induction false} ProceededByCheck(a: State, b: State)
    requires |a.pvcLog| > 0 && |a.podLog| > 0 && b == a.(activity := b.activity, misses := b.misses)
    requires Remembers(a.misses, b.misses, b.now)
    ensures Proceeded(a, b)
  {
    hide Remembers;
  }

  lemma {:induction false} ProceededByDrift(a: State, b: State, c: State)
    requires Proceeded(a, b) && Drift(b, c)
    ensures Proceeded(a, c) && c.activity == b.activity && b.pvcLog <= c.pvcLog && b.podLog <= c.podLog
  {
    WeakenedByDrift(a.Pvcs(), b, c);
    RemembersTwice(a.misses, b.misses, c.misses, b.now, c.now);
    hide Weakened, SamePromises;
  }

  lemma {:induction false} ProceededByRelease(a: State, b: State, c: State)
    requires Proceeded(a, b) && |b.pvcLog| > 0 && b.pvcLog <= c.pvcLog && |c.pvcLog| > 0
    requires c == b.(activity := c.activity, pvcLog := c.pvcLog) && Weakened(b.Pvcs(), c.Pvcs(), b.Pods())
    ensures Proceeded(a, c)
  {
    WeakenedTwice(a.Pvcs(), b.Pvcs(), c.Pvcs(), b.Pods(), c.Pods());
    hide Weakened, Remembers;
  }

  // The list an allocation worked on, and what it did.
  datatype Allocation = Allocation(view: nat, names: seq<string>, claims: seq<Claim>, acts: seq<Act>)

  /** An allocation that worked on the claims as `seen` shows them turned the cluster's claims from `before` into `after`. */
  ghost predicate Allocated(seen: Pvcs, before: Pvcs, after: Pvcs, mounts: seq<string>, pod: string,
                            templates: seq<Template>, volumes: set<string>, run: Allocation) {
    && Shows(run.claims, run.names, seen) && Lists(run.names, seen.Keys)
    && GrewBy(before, after, run.acts)
    && run.acts <= PlanFor(CacheMounts(mounts, volumes), run.claims, pod, templates, volumes).acts
  }

  // The acts are those of the plan, all of them or up to where the allocation ended.
  ghost predicate Follows(r: Assignment, acts: seq<Act>, plan: Plan) {
    match r
    case Assigned => plan == Plan(acts, None)
    case Exhausted(v) => plan == Plan(acts, Some(v))
    case ApiFailure => acts <= plan.acts
  }

  ghost function Extend(acts: seq<Act>, plan: Plan): Plan {
    plan.(acts := acts + plan.acts)
  }

  lemma {:induction false} MountedOnce(mounts: seq<string>, volumes: set<string>, k: nat)
    requires OncePerPod(mounts, volumes) && k < |CacheMounts(mounts, volumes)|
    ensures var cache := CacheMounts(mounts, volumes); cache[k] !in cache[..k]
  {
    NotMountedBefore(CacheMounts(mounts, volumes), k);
  }

  // What an allocation is to do, and on what: the mounts of cache volumes, the claims at its beginning, the
  // claims as listed, the whole plan, and whether every pod is known to hold at most one claim of each volume.
  datatype Task = Task(
    pod: string,
    cache: seq<string>,
    templates: seq<Template>,
    volumes: set<string>,
    first: Pvcs,
    seen: Pvcs,
    whole: Plan,
    once: bool)

  // The allocation has granted claims for the first mounts, and the rest of the plan is still ahead.
  ghost predicate Underway(t: Task, now: Pvcs, granted: seq<string>, claims: seq<Claim>, acts: seq<Act>) {
    && |granted| <= |t.cache|
    && Listing(claims, t.seen)
    && GrewBy(t.first, now, acts) && GrantsOnly(t.first, now, t.pod, t.cache)
    && Granted(granted, t.cache[..|granted|], now)
    && (t.once ==> Orderly(now, t.pod, t.cache[..|granted|]))
    && t.whole == Extend(acts, PlanFor(t.cache[|granted|..], claims, t.pod, t.templates, t.volumes))
  }

  lemma {:induction false} UnderwayStarts(t: Task, claims: seq<Claim>, names: seq<string>)
    requires Shows(claims, names, t.seen) && InNameOrder(claims) && (t.once ==> Orderly(t.first, t.pod, []))
    requires t.whole == PlanFor(t.cache, claims, t.pod, t.templates, t.volumes)
    ensures Underway(t, t.first, [], claims, [])
  {
    hide PlanFor, Orderly;
    assert t.cache[0..] == t.cache && t.cache[..0] == [];
    assert GrewBy(t.first, t.first, []) && GrantsOnly(t.first, t.first, t.pod, t.cache) && Listing(claims, t.seen);
  }

  lemma {:induction false} UnderwayAborted(t: Task, now: Pvcs, claims: seq<Claim>)
    requires Underway(t, now, [], claims, [])
    ensures GrewBy(t.first, now, []) && GrantsOnly(t.first, now, t.pod, t.cache)
    ensures t.once ==> Orderly(now, t.pod, t.cache)
  {
    assert t.once ==> Orderly(now, t.pod, t.cache[..0]);
  }

  lemma {:induction false} UnderwayListing(t: Task, now: Pvcs, granted: seq<string>, claims: seq<Claim>, acts: seq<Act>)
    requires Underway(t, now, granted, claims, acts)
    ensures Listing(claims, t.seen)
  {
  }

  lemma {:induction false} UnderwayMore(t: Task, before: Pvcs, after: Pvcs, granted: seq<string>, claims: seq<Claim>,
                                        acts: seq<Act>, act: Option<Act>, claim: string)
    requires Underway(t, before, granted, claims, acts) && |granted| < |t.cache|
    requires var v := t.cache[|granted|];
             && Did(before, after, act) && Granting(before, after, t.pod, v)
             && (act.Some? ==> act == NextAct(v, claims, t.templates, t.volumes))
             && (t.once ==> v !in t.cache[..|granted|])
    ensures GrewBy(t.first, after, acts + Listed(act)) && acts + Listed(act) <= t.whole.acts
    ensures (t.once ==> Orderly(after, t.pod, t.cache)) && GrantsOnly(t.first, after, t.pod, t.cache)
    ensures NextAct(t.cache[|granted|], claims, t.templates, t.volumes).None? ==>
              t.whole == Plan(acts + Listed(act), Some(t.cache[|granted|]))
    ensures act.Some? && claim in after && after[claim].volume == t.cache[|granted|] ==>
              var i := FirstFree(claims, t.cache[|granted|]);
              Underway(t, after, granted + [claim], if i < |claims| then Promise(claims, i, t.pod) else claims,
                       acts + Listed(act))
  {
    hide GrewBy, Granted, Granting, GrantsOnly, Orderly, PlanFor, NextAct, Did, FirstFree, VolumesKept;
    var k := |granted|;
    GrantsOnlyMore(t.first, before, after, t.pod, t.cache, t.cache[k]);
    GrewByAct(t.first, before, after, acts, act);
    PlanStep(acts, t.cache, k, claims, t.pod, t.templates, t.volumes, t.whole);
    if t.once {
      GrantKeepsSingle(before, after, t.pod, t.cache, k);
    }
    if claim in after && after[claim].volume == t.cache[k] {
      GrantedMore(granted, t.cache, before, after, claim);
    }
  }

  lemma {:induction false} UnderwayEnds(t: Task, mounts: seq<string>, now: Pvcs, granted: seq<string>,
                                        claims: seq<Claim>, acts: seq<Act>)
    requires Underway(t, now, granted, claims, acts)
    requires t.cache[|granted|..] == CacheMounts(mounts[|mounts|..], t.volumes)
    ensures GrewBy(t.first, now, acts) && Granted(granted, t.cache, now) && t.whole == Plan(acts, None)
    ensures (t.once ==> Orderly(now, t.pod, t.cache)) && GrantsOnly(t.first, now, t.pod, t.cache)
  {
    hide GrewBy, Granted, GrantsOnly, Orderly;
    assert t.cache[..|granted|] == t.cache;
  }

  lemma {:induction false} CacheMountsStep(mounts: seq<string>, volumes: set<string>, i: nat, cache: seq<string>, k: nat)
    requires i < |mounts| && k <= |cache| && cache[k..] == CacheMounts(mounts[i..], volumes)
    ensures if mounts[i] in volumes then
              k < |cache| && cache[k] == mounts[i] && cache[k + 1..] == CacheMounts(mounts[i + 1..], volumes)
            else cache[k..] == CacheMounts(mounts[i + 1..], volumes)
  {
    assert mounts[i..][1..] == mounts[i + 1..];
    if mounts[i] in volumes {
      assert cache[k..][1..] == cache[k + 1..];
    }
  }

  lemma {:induction false} PlanUnfolds(mounts: seq<string>, claims: seq<Claim>, pod: string,
                                       templates: seq<Template>, volumes: set<string>)
    requires mounts != []
    ensures var act, i := NextAct(mounts[0], claims, templates, volumes), FirstFree(claims, mounts[0]);
            var marked := if i < |claims| then Promise(claims, i, pod) else claims;
            PlanFor(mounts, claims, pod, templates, volumes) ==
            if act.None? then Plan([], Some(mounts[0]))
            else Extend([act.value], PlanFor(mounts[1..], marked, pod, templates, volumes))
  {
    hide FirstFree, ClaimsOf, Limit;
  }

  lemma {:induction false} PlanStep(acts: seq<Act>, cache: seq<string>, k: nat, claims: seq<Claim>, pod: string,
                                    templates: seq<Template>, volumes: set<string>, whole: Plan)
    requires k < |cache| && whole == Extend(acts, PlanFor(cache[k..], claims, pod, templates, volumes))
    ensures var act, i := NextAct(cache[k], claims, templates, volumes), FirstFree(claims, cache[k]);
            var marked := if i < |claims| then Promise(claims, i, pod) else claims;
            if act.None? then whole == Plan(acts, Some(cache[k]))
            else
              && whole == Extend(acts + [act.value], PlanFor(cache[k + 1..], marked, pod, templates, volumes))
              && acts + [act.value] <= whole.acts
  {
    hide FirstFree, PlanFor, NextAct;
    PlanUnfolds(cache[k..], claims, pod, templates, volumes);
    assert cache[k..][1..] == cache[k + 1..];
  }

  lemma {:induction false} GrantedMore(granted: seq<string>, cache: seq<string>, before: Pvcs, after: Pvcs, claim: string)
    requires |granted| < |cache| && Granted(granted, cache[..|granted|], before) && VolumesKept(before, after)
    requires claim in after && after[claim].volume == cache[|granted|]
    ensures Granted(granted + [claim], cache[..|granted| + 1], after)
  {
  }

  lemma {:induction false} GiveUpEffect(s: State, lag: Time)
    requires |s.podLog| > 0 && |s.pvcLog| > 0 && s.activity.Creating?
    ensures Enabled(s, GiveUp, lag) && Apply(s, GiveUp, lag) == s.(activity := Idle)
  {
  }
}
