/**
 What one reconcile pass may do to the pods of one template, and where repeated passes lead. The counted
 pods and the pending jobs of the template are bags of demand strings.
 */
module Convergence {
  import opened Numbers
  import opened Outcomes

  type Keys = multiset<string>

  // The demand strings of the pods created, the one of the pod deleted, and whether no creation failed.
  datatype Effect = Effect(created: seq<string>, victim: Option<string>, complete: bool)

  const Nothing: Effect := Effect([], None, true)

  datatype Bounds = Bounds(min: nat, max: nat, home: string)

  /** How many pods the template should have for that many jobs. */
  function Target(t: Bounds, jobs: nat): int {
    Min(t.max, Max(jobs, t.min))
  }

  /** The effects of a pass: shrink by at most one, fill up to MinCount, or serve the jobs that lack a pod. */
  ghost predicate Allowed(t: Bounds, pods: Keys, jobs: Keys, e: Effect) {
    var n := |pods|;
    if n > Target(t, |jobs|) then
      e.created == [] && (e.victim.Some? ==> e.victim.value in pods)
    else if n < t.min then
      && e.victim.None?
      && (forall k | k in e.created :: k == t.home)
      && |e.created| <= t.min - n
      && (e.complete ==> |e.created| == t.min - n)
    else
      && e.victim.None?
      && multiset(e.created) <= jobs - pods
      && |e.created| <= t.max - n
      && (e.complete ==> |e.created| == Min(t.max - n, |jobs - pods|))
  }

  ghost function After(pods: Keys, e: Effect): Keys {
    pods + multiset(e.created) - if e.victim.Some? then multiset{e.victim.value} else multiset{}
  }

  lemma {:induction false} AfterCases(pods: Keys, e: Effect, now: Keys)
    ensures e.victim.None? && now == pods + multiset(e.created) ==> now == After(pods, e)
    ensures e.created == [] && e.victim.Some? && now + multiset{e.victim.value} == pods ==> now == After(pods, e)
  {
  }

  lemma {:induction false} NoEffect(pods: Keys, e: Effect)
    requires e.created == [] && e.victim.None?
    ensures After(pods, e) == pods
  {
    assert multiset(e.created) == multiset{};
  }

  lemma {:induction false} AfterSize(t: Bounds, pods: Keys, jobs: Keys, e: Effect)
    requires Allowed(t, pods, jobs, e)
    ensures |After(pods, e)| == |pods| + |e.created| - if e.victim.Some? then 1 else 0
  {
    var all := pods + multiset(e.created);
    if e.victim.Some? {
      assert all - multiset{e.victim.value} + multiset{e.victim.value} == all;
    }
  }

  lemma {:induction false} NothingIsAllowed(t: Bounds, pods: Keys, jobs: Keys)
    ensures Allowed(t, pods, jobs, Effect([], None, false))
  {
    assert multiset(Effect([], None, false).created) == multiset{};
    if |pods| <= Target(t, |jobs|) && |pods| >= t.min {
      assert |pods| <= t.max;
    }
  }

  /**
   A pass never takes a template above max(count before, MaxCount, MinCount), so never above
   max(count before, MaxCount) when MinCount <= MaxCount; it deletes at most one pod, and deleting never
   takes it below its target. This holds whatever creations fail.
   */
  lemma {:induction false} PassStaysInBounds(t: Bounds, pods: Keys, jobs: Keys, e: Effect)
    requires Allowed(t, pods, jobs, e)
    ensures |After(pods, e)| <= Max(|pods|, Max(t.max, t.min))
    ensures |After(pods, e)| >= Min(|pods|, Target(t, |jobs|))
    ensures |After(pods, e)| >= |pods| - 1
  {
    AfterSize(t, pods, jobs, e);
  }

  lemma {:induction false} SubBagSize(a: Keys, b: Keys)
    requires a <= b
    ensures |b - a| == |b| - |a|
    ensures |a| <= |b|
  {
    assert b == a + (b - a);
  }

  /**
   No surplus: when no demand has more pods than jobs and the count is within the template's bounds, one
   complete pass brings the template to min(jobs, MaxCount) pods, again without surplus, for any order in
   which the demands are served, and no later pass changes anything while the jobs stay.
   */
  lemma {:induction false} OnePassServesAllDemands(t: Bounds, pods: Keys, jobs: Keys, e: Effect, next: Effect)
    requires pods <= jobs && t.min <= |pods| <= t.max
    requires Allowed(t, pods, jobs, e) && e.complete
    requires Allowed(t, After(pods, e), jobs, next)
    ensures After(pods, e) <= jobs && |After(pods, e)| == Min(|jobs|, t.max)
    ensures next.created == [] && next.victim.None?
  {
    SubBagSize(pods, jobs);
    AfterSize(t, pods, jobs, e);
    var after := After(pods, e);
    ServedStaySubBag(pods, jobs, multiset(e.created));
    SubBagSize(after, jobs);
    NothingLeftToServe(t, after, jobs, next);
  }

  lemma {:induction false} ServedStaySubBag(pods: Keys, jobs: Keys, created: Keys)
    requires pods <= jobs && created <= jobs - pods
    ensures pods + created - multiset{} <= jobs
  {
  }

  lemma {:induction false} NothingLeftToServe(t: Bounds, pods: Keys, jobs: Keys, e: Effect)
    requires pods <= jobs && t.min <= |pods| == Min(|jobs|, t.max) && Allowed(t, pods, jobs, e)
    ensures e.created == [] && e.victim.None?
  {
    SubBagSize(pods, jobs);
    assert |multiset(e.created)| == |e.created|;
    SubBagSize(multiset(e.created), jobs - pods);
  }

  // Nothing but this demand occurs. It need not be the template's own capabilities: jobs may ask for extra
  // containers, say.
  ghost predicate Only(d: string, bag: Keys) {
    forall k | k in bag :: k == d
  }

  lemma {:induction false} OnlyCounts(d: string, bag: Keys)
    requires Only(d, bag)
    ensures bag == multiset{}[d := |bag|]
  {
    var rest := bag[d := 0];
    assert rest == multiset{};
    assert bag == rest[d := bag[d]];
  }

  function Distance(t: Bounds, pods: nat, jobs: nat): nat {
    var d := pods - Target(t, jobs);
    if d < 0 then -d else d
  }

  /**
   One demand, jobs unchanged: a complete pass never moves away from the target; it closes the gap from below
   at once, except that the first pass below MinCount only reaches MinCount; from above it comes one step
   closer whenever it finds a pod it may delete. There is still one demand afterwards exactly when it is the
   template's own, or the pass did not have to fill up to MinCount.
   */
  lemma {:induction false} PassApproachesTarget(t: Bounds, d: string, pods: Keys, jobs: Keys, e: Effect)
    requires t.min <= t.max && Only(d, pods) && Only(d, jobs)
    requires Allowed(t, pods, jobs, e) && e.complete
    ensures var target, before, after := Target(t, |jobs|), |pods|, |After(pods, e)|;
            && Distance(t, after, |jobs|) <= Distance(t, before, |jobs|)
            && (before == target ==> after == target && e.created == [] && e.victim.None?)
            && (before < t.min ==> after == t.min)
            && (t.min <= before <= target ==> after == target)
            && (before > target ==> after == before - if e.victim.Some? then 1 else 0)
    ensures Only(d, After(pods, e)) <==> d == t.home || t.min <= |pods|
  {
    AfterSize(t, pods, jobs, e);
    OnlyGap(d, pods, jobs);
    OnlyStays(t, d, pods, jobs, e);
  }

  lemma {:induction false} OnlyGap(d: string, pods: Keys, jobs: Keys)
    requires Only(d, pods) && Only(d, jobs)
    ensures |jobs - pods| == Max(0, |jobs| - |pods|)
  {
    OnlyCounts(d, pods);
    OnlyCounts(d, jobs);
    var gap := Max(0, |jobs| - |pods|);
    assert jobs - pods == multiset{}[d := gap];
  }

  lemma {:induction false} OnlyStays(t: Bounds, d: string, pods: Keys, jobs: Keys, e: Effect)
    requires t.min <= t.max && Only(d, pods) && Only(d, jobs) && Allowed(t, pods, jobs, e) && e.complete
    ensures Only(d, After(pods, e)) <==> d == t.home || t.min <= |pods|
  {
    if d == t.home || t.min <= |pods| {
      forall k | k in After(pods, e) ensures k == d {
        if k !in pods && k in multiset(e.created) {
          assert k in e.created;
          if !(|pods| < t.min) {
            assert k in jobs - pods;
          }
        }
      }
    } else {
      assert e.created[0] in e.created;
      assert t.home in After(pods, e);
    }
  }

  // Pods made to fill up to MinCount are of no use to another demand.
  lemma {:induction false} FilledElsewhere(t: Bounds, d: string, pods: Keys, jobs: Keys, e: Effect)
    requires Allowed(t, pods, jobs, e) && e.complete && Only(d, jobs) && d != t.home
    requires |pods| < t.min <= t.max
    ensures |After(pods, e)| == t.min && jobs - After(pods, e) == jobs - pods
  {
    AfterSize(t, pods, jobs, e);
    assert e.victim.None?;
    assert multiset(e.created)[d] == 0 by {
      assert d !in e.created;
    }
  }

  lemma {:induction false} ServedFromMin(t: Bounds, pods: Keys, jobs: Keys, e: Effect)
    requires Allowed(t, pods, jobs, e) && e.complete && |pods| == t.min <= t.max
    ensures |After(pods, e)| == Min(t.max, t.min + |jobs - pods|)
  {
    AfterSize(t, pods, jobs, e);
    hide After;
  }

  // The second pass after one that filled up to MinCount with pods of another demand.
  lemma {:induction false} FilledThenServed(t: Bounds, d: string, pods: Keys, jobs: Keys, first: Effect, second: Effect)
    requires t.min <= t.max && Only(d, pods) && Only(d, jobs) && |pods| < t.min && d != t.home
    requires Allowed(t, pods, jobs, first) && first.complete
    requires Allowed(t, After(pods, first), jobs, second) && second.complete
    ensures |After(After(pods, first), second)| == Min(t.max, t.min + Max(0, |jobs| - |pods|))
  {
    FilledElsewhere(t, d, pods, jobs, first);
    OnlyGap(d, pods, jobs);
    hide Allowed, After, Only;
    ServedFromMin(t, After(pods, first), jobs, second);
  }

  /**
   One demand, from below: two complete passes reach the target exactly when the demand is the template's own,
   or MinCount is reached already, or no job lacks a pod, or MaxCount leaves no room to overshoot. Otherwise the
   pods that fill up to MinCount do not serve the jobs, and the second pass adds to them.
   */
  lemma {:induction false} TwoPassesReachTarget(t: Bounds, d: string, pods: Keys, jobs: Keys, first: Effect, second: Effect)
    requires t.min <= t.max && Only(d, pods) && Only(d, jobs) && |pods| <= Target(t, |jobs|)
    requires Allowed(t, pods, jobs, first) && first.complete
    requires Allowed(t, After(pods, first), jobs, second) && second.complete
    ensures |After(After(pods, first), second)| == Target(t, |jobs|) <==>
            d == t.home || t.min <= |pods| || |jobs| <= |pods| || t.max <= Max(|jobs|, t.min)
    ensures d != t.home && |pods| < t.min ==>
              |After(After(pods, first), second)| == Min(t.max, t.min + Max(0, |jobs| - |pods|))
  {
    hide Allowed, After, Only;
    PassApproachesTarget(t, d, pods, jobs, first);
    if d == t.home || t.min <= |pods| {
      PassApproachesTarget(t, d, After(pods, first), jobs, second);
    } else {
      FilledThenServed(t, d, pods, jobs, first, second);
    }
  }

  /** Two jobs of another demand and a MinCount of one end with three pods, though two would do. */
  lemma {:induction false} FillingOvershoots(home: string, d: string)
    requires d != home
    ensures var t, pods, jobs := Bounds(1, 3, home), multiset{}, multiset{d, d};
            var first, second := Effect([home], None, true), Effect([d, d], None, true);
            && Allowed(t, pods, jobs, first) && Allowed(t, After(pods, first), jobs, second)
            && Target(t, |jobs|) == 2 && |After(After(pods, first), second)| == 3
  {
    assert multiset([home]) == multiset{home} && multiset([d, d]) == multiset{d, d};
    assert multiset{d, d} - multiset{home} == multiset{d, d};
  }

  /** The counts of a run of complete passes with the same jobs. */
  ghost predicate Passes(t: Bounds, jobs: Keys, states: seq<Keys>, effects: seq<Effect>) {
    && |states| == |effects| + 1
    && forall i | 0 <= i < |effects| ::
         Allowed(t, states[i], jobs, effects[i]) && effects[i].complete && states[i + 1] == After(states[i], effects[i])
  }

  ghost function Deletions(effects: seq<Effect>): nat {
    if effects == [] then 0
    else Deletions(effects[..|effects| - 1]) + if effects[|effects| - 1].victim.Some? then 1 else 0
  }

  /**
   One demand, whichever it is, from above: after any number of passes the excess over the target is the initial
   excess less the passes that found a pod they could delete, and it never undershoots.
   */
  lemma {:induction false} ExcessShrinksPerDeletion(t: Bounds, d: string, jobs: Keys, states: seq<Keys>, effects: seq<Effect>)
    requires t.min <= t.max && Passes(t, jobs, states, effects)
    requires Only(d, states[0]) && Only(d, jobs) && |states[0]| >= Target(t, |jobs|)
    ensures Only(d, states[|effects|])
    ensures |states[|effects|]| == |states[0]| - Deletions(effects) >= Target(t, |jobs|)
    decreases |effects|
  {
    hide Allowed, After;
    if effects != [] {
      var n := |effects| - 1;
      ExcessShrinksPerDeletion(t, d, jobs, states[..n + 1], effects[..n]);
      PassApproachesTarget(t, d, states[n], jobs, effects[n]);
    }
  }

  // Any number of elements can be drawn from a bag that holds as many.
  lemma {:induction false} Draw(bag: Keys, n: nat) returns (drawn: seq<string>)
    requires n <= |bag|
    ensures |drawn| == n && multiset(drawn) <= bag
  {
    drawn := [];
    if n > 0 {
      var k :| k in bag;
      var rest := Draw(bag - multiset{k}, n - 1);
      drawn := rest + [k];
    }
  }

  lemma {:induction false} ChangesSize(t: Bounds, pods: Keys, jobs: Keys, e: Effect)
    requires Allowed(t, pods, jobs, e) && e.complete && (e.victim.Some? || e.created != [])
    ensures After(pods, e) != pods
  {
    AfterSize(t, pods, jobs, e);
  }

  /**
   Any demands: no complete pass changes the pods of a template exactly when their number is between MinCount
   and the target and either MaxCount is reached or no demand lacks a pod.
   */
  lemma {:induction false} StableExactlyWhen(t: Bounds, pods: Keys, jobs: Keys)
    ensures (forall e | Allowed(t, pods, jobs, e) && e.complete :: After(pods, e) == pods) <==>
            t.min <= |pods| <= Target(t, |jobs|) && (|pods| == t.max || jobs <= pods)
  {
    hide After;
    var n := |pods|;
    if t.min <= n <= Target(t, |jobs|) && (n == t.max || jobs <= pods) {
      forall e | Allowed(t, pods, jobs, e) && e.complete ensures After(pods, e) == pods {
        StaysWhenServed(t, pods, jobs, e);
      }
    } else if n > Target(t, |jobs|) {
      var k :| k in pods;
      ChangesSize(t, pods, jobs, Effect([], Some(k), true));
    } else if n < t.min {
      ChangesSize(t, pods, jobs, Effect(seq(t.min - n, _ => t.home), None, true));
    } else {
      SomethingLeft(pods, jobs);
      var created := Draw(jobs - pods, Min(t.max - n, |jobs - pods|));
      ChangesSize(t, pods, jobs, Effect(created, None, true));
    }
  }

  lemma {:induction false} SomethingLeft(pods: Keys, jobs: Keys)
    requires !(jobs <= pods)
    ensures |jobs - pods| > 0
  {
    var k :| jobs[k] > pods[k];
    assert (jobs - pods)[k] > 0;
  }

  lemma {:induction false} StaysWhenServed(t: Bounds, pods: Keys, jobs: Keys, e: Effect)
    requires t.min <= |pods| <= Target(t, |jobs|) && (|pods| == t.max || jobs <= pods)
    requires Allowed(t, pods, jobs, e)
    ensures After(pods, e) == pods
  {
    assert jobs <= pods ==> |jobs - pods| == 0;
    SubBagSize(multiset(e.created), jobs - pods);
    assert |multiset(e.created)| == |e.created|;
    NoEffect(pods, e);
  }

  /** One demand: a template at its target can stay there in a complete pass exactly when MinCount <= MaxCount. */
  lemma {:induction false} TargetIsStableExactlyWhenOrdered(t: Bounds, d: string, pods: Keys, jobs: Keys)
    requires Only(d, pods) && Only(d, jobs) && |pods| == Target(t, |jobs|)
    ensures (forall e | Allowed(t, pods, jobs, e) && e.complete :: After(pods, e) == pods) <==> t.min <= t.max
  {
    StableExactlyWhen(t, pods, jobs);
    OnlyOrdered(d, jobs, pods);
    hide Allowed, After, Only;
  }

  lemma {:induction false} OnlyOrdered(d: string, a: Keys, b: Keys)
    requires Only(d, a) && Only(d, b)
    ensures |a| <= |b| ==> a <= b
  {
    OnlyCounts(d, a);
    OnlyCounts(d, b);
  }

  /**
   With a surplus of pods for one demand, a template can be at its target and yet create a pod for another
   demand in one pass and delete it again in the next, for ever.
   */
  lemma {:induction false} SurplusOscillates(t: Bounds, idle: string, wanted: string)
    requires t.min <= 1 && t.max >= 2 && idle != wanted
    ensures var pods, jobs := multiset{idle}, multiset{wanted};
            var create, delete := Effect([wanted], None, true), Effect([], Some(wanted), true);
            && |pods| == Target(t, |jobs|)
            && Allowed(t, pods, jobs, create)
            && Allowed(t, After(pods, create), jobs, delete)
            && After(After(pods, create), delete) == pods
  {
    var pods, jobs := multiset{idle}, multiset{wanted};
    assert jobs - pods == jobs;
    assert multiset([wanted]) == jobs;
    assert pods + jobs == multiset{idle, wanted};
  }

  /**
   The state in the middle of a pass over several templates, one bag of pods and one of jobs for each: the
   templates handled so far have had their effect, judged by the pods before the pass; the others none.
   */
  ghost predicate Midway(ts: seq<Bounds>, before: seq<Keys>, jobs: seq<Keys>, now: seq<Keys>, effects: seq<Effect>) {
    && |before| == |jobs| == |now| == |ts| && |effects| <= |ts|
    && (forall i | 0 <= i < |effects| :: Allowed(ts[i], before[i], jobs[i], effects[i]))
    && (forall i | 0 <= i < |ts| :: now[i] == if i < |effects| then After(before[i], effects[i]) else before[i])
  }

  lemma {:induction false} OneMore(ts: seq<Bounds>, before: seq<Keys>, jobs: seq<Keys>, now: seq<Keys>,
                                   effects: seq<Effect>, e: Effect, next: seq<Keys>)
    requires Midway(ts, before, jobs, now, effects) && |effects| < |ts|
    requires Allowed(ts[|effects|], before[|effects|], jobs[|effects|], e)
    requires next == now[|effects| := After(now[|effects|], e)]
    ensures Midway(ts, before, jobs, next, effects + [e])
  {
  }
}
