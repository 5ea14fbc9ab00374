/** How many claims a cache volume may have, and which claims a new pod gets. */
module Volumes {
  import opened Numbers
  import opened Outcomes
  import opened Spec

  // A claim as the allocator lists it: its cache volume and the pod it is promised to.
  datatype Claim = Claim(name: string, volume: string, promised: Option<string>)

  ghost predicate Uses(t: Template, volumes: set<string>, v: string) {
    v in volumes && v in Mounts(t.containers)
  }

  /** The sum of MaxCount over the templates that mount the volume, each template counted once. */
  ghost function Limit(templates: seq<Template>, volumes: set<string>, v: string): nat {
    if templates == [] then 0
    else
      var n := |templates| - 1;
      Limit(templates[..n], volumes, v) + if Uses(templates[n], volumes, v) then templates[n].maxCount else 0
  }

  ghost predicate LimitsUpTo(limits: map<string, int>, templates: seq<Template>, volumes: set<string>) {
    forall v ::
      && (v in limits <==> exists i | 0 <= i < |templates| :: Uses(templates[i], volumes, v))
      && (v in limits ==> limits[v] == Limit(templates, volumes, v))
  }

  lemma {:induction false} UnusedHasNoLimit(templates: seq<Template>, volumes: set<string>, v: string)
    requires forall i | 0 <= i < |templates| :: !Uses(templates[i], volumes, v)
    ensures Limit(templates, volumes, v) == 0
  {
    if templates != [] {
      UnusedHasNoLimit(templates[..|templates| - 1], volumes, v);
    }
  }

  /** One more template adds its MaxCount to the limits of exactly the cache volumes that one of its containers mounts. */
  lemma {:induction false} LimitOneMore(templates: seq<Template>, t: Template, volumes: set<string>, v: string)
    ensures Limit([], volumes, v) == 0
    ensures Limit(templates + [t], volumes, v) ==
            Limit(templates, volumes, v)
            + if v in volumes && exists i | 0 <= i < |t.containers| :: v in t.containers[i].mounts then t.maxCount else 0
  {
    MountsMember(t.containers, v);
    assert (templates + [t])[..|templates|] == templates;
  }

  method VolumesUsedBy(t: Template, volumes: set<string>) returns (used: set<string>)
    ensures forall v :: v in used <==> Uses(t, volumes, v)
    ensures forall v :: v in used <==> v in volumes && exists i | 0 <= i < |t.containers| :: v in t.containers[i].mounts
  {
    used := {};
    for i := 0 to |t.containers|
      invariant forall v :: v in used <==> v in volumes && exists k | 0 <= k < i :: v in t.containers[k].mounts
    {
      var mounts := t.containers[i].mounts;
      for j := 0 to |mounts|
        invariant forall v :: v in used <==>
          v in volumes && (v in mounts[..j] || exists k | 0 <= k < i :: v in t.containers[k].mounts)
      {
        if mounts[j] in volumes {
          used := used + {mounts[j]};
        }
      }
      assert mounts[..|mounts|] == mounts;
    }
    forall v { MountsMember(t.containers, v); }
  }

  ghost predicate Raised(before: map<string, int>, limits: map<string, int>, used: set<string>, maxCount: nat) {
    forall v ::
      && (v in limits <==> v in before || v in used)
      && (v in limits ==> limits[v] == (if v in before then before[v] else 0) + if v in used then maxCount else 0)
  }

  lemma {:induction false} RaiseNone(before: map<string, int>, maxCount: nat)
    ensures Raised(before, before, {}, maxCount)
  {
  }

  lemma {:induction false} RaiseOne(before: map<string, int>, limits: map<string, int>, used: set<string>,
                                    maxCount: nat, v: string)
    requires Raised(before, limits, used, maxCount) && v !in used
    ensures Raised(before, limits[v := if v in limits then limits[v] + maxCount else maxCount], used + {v}, maxCount)
  {
  }

  // Adds the template's MaxCount to the limit of every volume it uses, in any order.
  method AddToLimits(before: map<string, int>, used: set<string>, maxCount: nat) returns (limits: map<string, int>)
    ensures Raised(before, limits, used, maxCount)
  {
    hide Raised;
    limits := before;
    var pending := used;
    ghost var done: set<string> := {};
    RaiseNone(before, maxCount);
    while pending != {}
      invariant pending !! done && pending + done == used && Raised(before, limits, done, maxCount)
      decreases |pending|
    {
      var v :| v in pending;
      RaiseOne(before, limits, done, maxCount, v);
      limits := limits[v := if v in limits then limits[v] + maxCount else maxCount];
      pending, done := pending - {v}, done + {v};
    }
    assert done == used;
  }

  method ComputePvcMaxCountsPerReusableCacheVolume(templates: seq<Template>, volumes: set<string>)
    returns (limits: map<string, int>)
    ensures LimitsUpTo(limits, templates, volumes)
  {
    limits := map[];
    for i := 0 to |templates|
      invariant LimitsUpTo(limits, templates[..i], volumes)
    {
      hide LimitsUpTo, Limit, Raised;
      ghost var before := limits;
      var used := VolumesUsedBy(templates[i], volumes);
      limits := AddToLimits(limits, used, templates[i].maxCount);
      ExtendLimits(before, limits, templates[..i], templates[i], used, volumes);
      assert templates[..i + 1] == templates[..i] + [templates[i]];
    }
    assert templates[..|templates|] == templates;
  }

  lemma {:induction false} ExtendLimits(before: map<string, int>, after: map<string, int>, templates: seq<Template>, t: Template,
                                        used: set<string>, volumes: set<string>)
    requires LimitsUpTo(before, templates, volumes)
    requires Raised(before, after, used, t.maxCount) && forall v :: v in used <==> Uses(t, volumes, v)
    ensures LimitsUpTo(after, templates + [t], volumes)
  {
    var all := templates + [t];
    assert all[..|templates|] == templates;
    forall v
      ensures v in after <==> exists i | 0 <= i < |all| :: Uses(all[i], volumes, v)
      ensures v in after ==> after[v] == Limit(all, volumes, v)
    {
      if Uses(t, volumes, v) {
        assert Uses(all[|templates|], volumes, v);
      }
      if i :| 0 <= i < |templates| && Uses(templates[i], volumes, v) {
        assert Uses(all[i], volumes, v);
      } else {
        UnusedHasNoLimit(templates, volumes, v);
      }
    }
  }

  function ClaimsOf(claims: seq<Claim>, v: string): nat {
    if claims == [] then 0
    else (if claims[0].volume == v then 1 else 0) + ClaimsOf(claims[1..], v)
  }

  function FreeOf(claims: seq<Claim>, v: string): nat {
    if claims == [] then 0
    else (if claims[0].volume == v && claims[0].promised.None? then 1 else 0) + FreeOf(claims[1..], v)
  }

  lemma {:induction false} ClaimsOfAppend(claims: seq<Claim>, c: Claim, v: string)
    ensures ClaimsOf(claims + [c], v) == ClaimsOf(claims, v) + if c.volume == v then 1 else 0
  {
    if claims != [] {
      assert (claims + [c])[1..] == claims[1..] + [c];
      ClaimsOfAppend(claims[1..], c, v);
    }
  }

  method IsPvcLimitExceeded(templates: seq<Template>, volumes: set<string>, v: string, claims: seq<Claim>)
    returns (exceeded: bool)
    ensures exceeded <==> ClaimsOf(claims, v) >= Limit(templates, volumes, v)
  {
    var limits := ComputePvcMaxCountsPerReusableCacheVolume(templates, volumes);
    var count := 0;
    for i := 0 to |claims|
      invariant count == ClaimsOf(claims[..i], v)
    {
      ClaimsOfAppend(claims[..i], claims[i], v);
      assert claims[..i + 1] == claims[..i] + [claims[i]];
      if claims[i].volume == v {
        count := count + 1;
      }
    }
    assert claims[..|claims|] == claims;
    if v !in limits {
      UnusedHasNoLimit(templates, volumes, v);
    }
    exceeded := count >= if v in limits then limits[v] else 0;
  }

  ghost function FirstFree(claims: seq<Claim>, v: string): (i: nat)
    ensures i <= |claims|
    ensures i < |claims| ==> claims[i].volume == v && claims[i].promised.None?
    ensures forall j | 0 <= j < i :: claims[j].volume != v || claims[j].promised.Some?
    ensures i == |claims| <==> FreeOf(claims, v) == 0
  {
    if claims == [] then 0
    else if claims[0].volume == v && claims[0].promised.None? then 0
    else 1 + FirstFree(claims[1..], v)
  }

  method GetUnpromisedPvc(claims: seq<Claim>, v: string) returns (i: nat)
    ensures i == FirstFree(claims, v)
  {
    i := 0;
    while i < |claims| && !(claims[i].volume == v && claims[i].promised.None?)
      invariant i <= |claims|
      invariant forall j | 0 <= j < i :: claims[j].volume != v || claims[j].promised.Some?
    {
      i := i + 1;
    }
  }

  // What is done for one mount of a cache volume.
  datatype Act = Reuse(index: nat) | Create(volume: string)

  datatype Plan = Plan(acts: seq<Act>, exhausted: Option<string>)

  function Promise(claims: seq<Claim>, i: nat, pod: string): seq<Claim>
    requires i < |claims|
  {
    claims[i := claims[i].(promised := Some(pod))]
  }

  /**
   The allocation for the cache-volume mounts of a pod, in order, when no API call fails. A reused claim is
   marked in the list at once; a created claim is not added to it.
   */
  ghost function PlanFor(mounts: seq<string>, claims: seq<Claim>, pod: string, templates: seq<Template>,
                         volumes: set<string>): Plan
  {
    if mounts == [] then Plan([], None)
    else
      var v := mounts[0];
      var i := FirstFree(claims, v);
      if i < |claims| then
        var rest := PlanFor(mounts[1..], Promise(claims, i, pod), pod, templates, volumes);
        Plan([Reuse(i)] + rest.acts, rest.exhausted)
      else if ClaimsOf(claims, v) >= Limit(templates, volumes, v) then Plan([], Some(v))
      else
        var rest := PlanFor(mounts[1..], claims, pod, templates, volumes);
        Plan([Create(v)] + rest.acts, rest.exhausted)
  }

  function Times(mounts: seq<string>, v: string): nat {
    if mounts == [] then 0 else (if mounts[0] == v then 1 else 0) + Times(mounts[1..], v)
  }

  function Creates(acts: seq<Act>, v: string): nat {
    if acts == [] then 0 else (if acts[0] == Create(v) then 1 else 0) + Creates(acts[1..], v)
  }

  lemma {:induction false} PromiseCounts(claims: seq<Claim>, i: nat, pod: string, v: string)
    requires i < |claims| && claims[i].promised.None?
    ensures ClaimsOf(Promise(claims, i, pod), v) == ClaimsOf(claims, v)
    ensures FreeOf(Promise(claims, i, pod), v) == FreeOf(claims, v) - if claims[i].volume == v then 1 else 0
  {
    if i == 0 {
      assert Promise(claims, i, pod)[1..] == claims[1..];
    } else {
      assert Promise(claims, i, pod)[1..] == Promise(claims[1..], i - 1, pod);
      PromiseCounts(claims[1..], i - 1, pod, v);
    }
  }

  ghost predicate Short(mounts: seq<string>, claims: seq<Claim>, templates: seq<Template>, volumes: set<string>,
                        v: string) {
    Times(mounts, v) > FreeOf(claims, v) && ClaimsOf(claims, v) >= Limit(templates, volumes, v)
  }

  /** Exactly when the allocator reports exhaustion: some volume is short of free claims and at its limit. */
  lemma {:induction false} ExhaustedExactlyWhenShort(mounts: seq<string>, claims: seq<Claim>, pod: string,
                                                     templates: seq<Template>, volumes: set<string>)
    ensures var plan := PlanFor(mounts, claims, pod, templates, volumes);
            && (plan.exhausted.Some? ==> Short(mounts, claims, templates, volumes, plan.exhausted.value))
            && (plan.exhausted.None? ==> forall v :: !Short(mounts, claims, templates, volumes, v))
  {
    if mounts != [] {
      var v, rest := mounts[0], mounts[1..];
      var i := FirstFree(claims, v);
      if i < |claims| {
        ExhaustedExactlyWhenShort(rest, Promise(claims, i, pod), pod, templates, volumes);
        forall w
          ensures Short(mounts, claims, templates, volumes, w) <==>
                  Short(rest, Promise(claims, i, pod), templates, volumes, w)
        {
          PromiseCounts(claims, i, pod, w);
        }
      } else {
        ExhaustedExactlyWhenShort(rest, claims, pod, templates, volumes);
        assert forall w | Short(mounts, claims, templates, volumes, w) :: w == v || Short(rest, claims, templates, volumes, w);
      }
    }
  }

  /** A completed allocation creates exactly the claims that were not there to be reused. */
  lemma {:induction false} CreatesWhatIsMissing(mounts: seq<string>, claims: seq<Claim>, pod: string,
                                                templates: seq<Template>, volumes: set<string>, v: string)
    requires PlanFor(mounts, claims, pod, templates, volumes).exhausted.None?
    ensures Creates(PlanFor(mounts, claims, pod, templates, volumes).acts, v) ==
            if Times(mounts, v) > FreeOf(claims, v) then Times(mounts, v) - FreeOf(claims, v) else 0
  {
    if mounts != [] {
      var i := FirstFree(claims, mounts[0]);
      if i < |claims| {
        PromiseCounts(claims, i, pod, v);
        CreatesWhatIsMissing(mounts[1..], Promise(claims, i, pod), pod, templates, volumes, v);
      } else {
        CreatesWhatIsMissing(mounts[1..], claims, pod, templates, volumes, v);
      }
    }
  }

  /**
   With the claims listed up to date, an allocation leaves every volume within max(claims before, limit)
   exactly when it does not have to create more than the limit leaves room for; mounting the volume at most
   once per pod is enough.
   */
  lemma {:induction false} BoundKeptExactlyWhenRoom(mounts: seq<string>, claims: seq<Claim>, pod: string,
                                 templates: seq<Template>, volumes: set<string>, v: string)
    requires PlanFor(mounts, claims, pod, templates, volumes).exhausted.None?
    ensures var created := Creates(PlanFor(mounts, claims, pod, templates, volumes).acts, v);
            var bound := Max(ClaimsOf(claims, v), Limit(templates, volumes, v));
            && (ClaimsOf(claims, v) + created <= bound <==>
                Times(mounts, v) <= FreeOf(claims, v) + (bound - ClaimsOf(claims, v)))
            && (Times(mounts, v) <= 1 ==> ClaimsOf(claims, v) + created <= bound)
  {
    CreatesWhatIsMissing(mounts, claims, pod, templates, volumes, v);
    ExhaustedExactlyWhenShort(mounts, claims, pod, templates, volumes);
    assert !Short(mounts, claims, templates, volumes, v);
  }

  /** The live pods of the templates that mount the volume. */
  ghost function Users(templates: seq<Template>, volumes: set<string>, v: string, live: seq<set<string>>): set<string>
    requires |live| == |templates|
  {
    if templates == [] then {}
    else
      var n := |templates| - 1;
      Users(templates[..n], volumes, v, live[..n]) + if Uses(templates[n], volumes, v) then live[n] else {}
  }

  lemma {:induction false} UsersBelowLimit(templates: seq<Template>, volumes: set<string>, v: string,
                                           live: seq<set<string>>)
    requires |live| == |templates|
    requires forall i | 0 <= i < |templates| :: |live[i]| <= templates[i].maxCount
    ensures |Users(templates, volumes, v, live)| <= Limit(templates, volumes, v)
    ensures (exists k | 0 <= k < |templates| :: Uses(templates[k], volumes, v) && |live[k]| < templates[k].maxCount)
              ==> |Users(templates, volumes, v, live)| < Limit(templates, volumes, v)
  {
    if templates != [] {
      var n := |templates| - 1;
      UsersBelowLimit(templates[..n], volumes, v, live[..n]);
      assert forall k | 0 <= k < n :: templates[k] == templates[..n][k] && live[k] == live[..n][k];
      UnionSize(Users(templates[..n], volumes, v, live[..n]), if Uses(templates[n], volumes, v) then live[n] else {});
    }
  }

  lemma {:induction false} UnionSize<T>(a: set<T>, b: set<T>)
    ensures |a + b| <= |a| + |b|
  {
    assert a + b == a + (b - a);
    assert |b - a| + |b * a| == |b| by { assert (b - a) + (b * a) == b; }
  }

  ghost predicate AllPromisedTo(claims: seq<Claim>, v: string, pods: set<string>) {
    forall i | 0 <= i < |claims| && claims[i].volume == v ::
      claims[i].promised.Some? ==> claims[i].promised.value in pods
  }

  // No pod holds two claims of the volume.
  ghost predicate OnePerPod(claims: seq<Claim>, v: string) {
    forall i, j | 0 <= i < j < |claims| && claims[i].volume == v == claims[j].volume && claims[i].promised.Some? ::
      claims[i].promised != claims[j].promised
  }

  lemma {:induction false} PromisedFitIn(claims: seq<Claim>, v: string, pods: set<string>)
    requires AllPromisedTo(claims, v, pods) && OnePerPod(claims, v)
    ensures ClaimsOf(claims, v) - FreeOf(claims, v) <= |pods|
  {
    if claims != [] {
      var c, rest := claims[0], claims[1..];
      assert forall i | 0 <= i < |rest| :: rest[i] == claims[i + 1];
      if c.volume == v && c.promised.Some? {
        PromisedFitIn(rest, v, pods - {c.promised.value});
        assert |pods - {c.promised.value}| == |pods| - 1;
      } else {
        PromisedFitIn(rest, v, pods);
      }
    }
  }

  /**
   Allocation never fails needlessly: while the promises on the mounted volumes belong to live pods of
   templates that mount them, one per pod, no template exceeds its MaxCount, and template k is still below
   its own, a pod of template k that mounts each volume at most once is never refused.
   */
  lemma {:induction false} NeverExhaustedBelowMaxCount(templates: seq<Template>, volumes: set<string>, live: seq<set<string>>, k: nat,
                                    mounts: seq<string>, claims: seq<Claim>, pod: string)
    requires |live| == |templates| && k < |templates|
    requires forall i | 0 <= i < |templates| :: |live[i]| <= templates[i].maxCount
    requires |live[k]| < templates[k].maxCount
    requires forall v | v in mounts :: Uses(templates[k], volumes, v) && Times(mounts, v) <= 1
    requires forall v | v in mounts ::
               AllPromisedTo(claims, v, Users(templates, volumes, v, live)) && OnePerPod(claims, v)
    ensures PlanFor(mounts, claims, pod, templates, volumes).exhausted.None?
  {
    ExhaustedExactlyWhenShort(mounts, claims, pod, templates, volumes);
    var plan := PlanFor(mounts, claims, pod, templates, volumes);
    if plan.exhausted.Some? {
      var v := plan.exhausted.value;
      NotMountedNotCounted(mounts, v);
      PromisedFitIn(claims, v, Users(templates, volumes, v, live));
      UsersBelowLimit(templates, volumes, v, live);
      assert false;
    }
  }

  lemma {:induction false} NotMountedNotCounted(mounts: seq<string>, v: string)
    ensures Times(mounts, v) > 0 <==> v in mounts
  {
    if mounts != [] {
      NotMountedNotCounted(mounts[1..], v);
    }
  }
}
