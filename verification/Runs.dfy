/** Whole runs of the operator: scaling passes interleaved with what happens to pods and jobs in between. */
module Runs {
  import opened Outcomes
  import opened Numbers
  import opened Spec
  import opened Capabilities
  import opened Index
  import opened Requests
  import opened Listing
  import opened Tally
  import opened Bags
  import opened Convergence
  import opened Scaler
  import opened Passes

  /** Between passes pods start, finish or vanish; only the operator creates pods that count. */
  ghost predicate Environment(templates: seq<Template>, before: seq<Pod>, after: seq<Pod>) {
    Within(templates, after, before)
  }

  /**
   A pass during which the cluster goes on changing: it lists part of what counts at its beginning, and in the
   end what counts is part of what it has seen.
   */
  ghost predicate Pass(templates: seq<Template>, before: seq<Pod>, after: seq<Pod>) {
    exists requests, effects, listed, seen ::
      && CleanRequests(requests) && PassOf(templates, requests, listed, seen, effects)
      && Within(templates, listed, before) && Within(templates, after, seen)
  }

  /** Jobs may be different in every pass, and passes may fail half way. */
  ghost predicate IsRun(templates: seq<Template>, states: seq<seq<Pod>>) {
    && states != []
    && forall i | 0 <= i < |states| - 1 ::
         Environment(templates, states[i], states[i + 1]) || Pass(templates, states[i], states[i + 1])
  }

  // What a pass did to one template.
  lemma {:induction false} TurnInPass(templates: seq<Template>, requests: seq<Request>, before: seq<Pod>,
                                      after: seq<Pod>, effects: seq<Effect>, k: nat)
    requires PassOf(templates, requests, before, after, effects) && k < |templates|
    ensures var t := templates[k];
            if k < |effects| then
              && Allowed(BoundsOf(t), PodBag(before, t.caps), JobBag(requests, t.caps), effects[k])
              && PodBag(after, t.caps) == After(PodBag(before, t.caps), effects[k])
            else PodBag(after, t.caps) == PodBag(before, t.caps)
  {
    hide PodBag, JobBag, Allowed, After;
    var t := templates[k];
    assert PodBags(templates, before)[k] == PodBag(before, t.caps);
    assert PodBags(templates, after)[k] == PodBag(after, t.caps);
    assert JobBags(templates, requests)[k] == JobBag(requests, t.caps);
    assert AllBounds(templates)[k] == BoundsOf(t);
  }

  lemma {:induction false} CountInPass(templates: seq<Template>, requests: seq<Request>, before: seq<Pod>,
                                       after: seq<Pod>, effects: seq<Effect>, k: nat)
    requires PassOf(templates, requests, before, after, effects) && k < |templates|
    ensures var t := templates[k];
            var n, n' := |PodBag(before, t.caps)|, |PodBag(after, t.caps)|;
            && n' <= Max(n, Max(t.maxCount, t.minCount))
            && n' >= n - 1
            && n' >= Min(n, Target(BoundsOf(t), |JobBag(requests, t.caps)|))
  {
    hide PodBag, JobBag, Allowed, After, PassOf;
    var t := templates[k];
    TurnInPass(templates, requests, before, after, effects, k);
    if k < |effects| {
      PassStaysInBounds(BoundsOf(t), PodBag(before, t.caps), JobBag(requests, t.caps), effects[k]);
    }
  }

  /** In no run does a template's pod count exceed both where it started and its MaxCount (if MinCount <= MaxCount). */
  lemma {:induction false} NeverAboveMaxCount(templates: seq<Template>, states: seq<seq<Pod>>, k: nat, i: nat)
    requires IsRun(templates, states) && k < |templates| && i < |states|
    requires templates[k].minCount <= templates[k].maxCount
    ensures |PodBag(states[i], templates[k].caps)| <=
            Max(|PodBag(states[0], templates[k].caps)|, templates[k].maxCount)
  {
    hide PodBag, JobBag, PassOf, CleanRequests;
    if i > 0 {
      NeverAboveMaxCount(templates, states, k, i - 1);
      var before, after := states[i - 1], states[i];
      assert Environment(templates, before, after) || Pass(templates, before, after) by { assert states[i - 1 + 1] == after; }
      if Environment(templates, before, after) {
        SubBagSize(PodBag(after, templates[k].caps), PodBag(before, templates[k].caps));
      } else {
        var requests, effects, listed, seen :|
          && CleanRequests(requests) && PassOf(templates, requests, listed, seen, effects)
          && Within(templates, listed, before) && Within(templates, after, seen);
        CountInPass(templates, requests, listed, seen, effects, k);
        SubBagSize(PodBag(listed, templates[k].caps), PodBag(before, templates[k].caps));
        SubBagSize(PodBag(after, templates[k].caps), PodBag(seen, templates[k].caps));
      }
    }
  }

  // The pods when a pass begins, when it makes its second list, and when it ends.
  datatype Round = Round(begin: seq<Pod>, second: seq<Pod>, end: seq<Pod>)

  ghost function States(start: seq<Pod>, rounds: seq<Round>): (states: seq<seq<Pod>>)
    ensures states != [] && states[0] == start
    ensures states[|states| - 1] == if rounds == [] then start else rounds[|rounds| - 1].end
  {
    if rounds == [] then [start]
    else
      var last := rounds[|rounds| - 1];
      States(start, rounds[..|rounds| - 1]) + [last.begin] + [last.end]
  }

  ghost predicate AllSteady(rounds: seq<Round>) {
    forall i | 0 <= i < |rounds| :: Steady(rounds[i].begin, rounds[i].second)
  }

  lemma {:induction false} RunGrows(templates: seq<Template>, states: seq<seq<Pod>>, next: seq<Pod>)
    requires IsRun(templates, states)
    requires var last := states[|states| - 1]; Environment(templates, last, next) || Pass(templates, last, next)
    ensures IsRun(templates, states + [next])
  {
    hide Environment, Pass;
    var longer := states + [next];
    forall i | 0 <= i < |longer| - 1
      ensures Environment(templates, longer[i], longer[i + 1]) || Pass(templates, longer[i], longer[i + 1])
    {
      if i < |states| - 1 {
        assert longer[i] == states[i] && longer[i + 1] == states[i + 1];
      }
    }
  }

  lemma {:induction false} SteadyIsPass(templates: seq<Template>, requests: seq<Request>, before: seq<Pod>, after: seq<Pod>,
                                        effects: seq<Effect>, listed: seq<Pod>, seen: seq<Pod>)
    requires CleanRequests(requests) && PassOf(templates, requests, listed, seen, effects)
    requires Within(templates, listed, before) && Within(templates, after, seen)
    ensures Pass(templates, before, after)
  {
    hide PassOf, Within, CleanRequests;
  }

  lemma {:induction false} RoundGrowsRun(templates: seq<Template>, start: seq<Pod>, rounds: seq<Round>, last: seq<Pod>, r: Round)
    requires AllSteady(rounds) ==> IsRun(templates, States(start, rounds))
    requires var states := States(start, rounds); last == states[|states| - 1]
    requires Evolves(last, r.begin)
    requires Steady(r.begin, r.second) ==> Pass(templates, r.begin, r.end)
    ensures AllSteady(rounds + [r]) ==> IsRun(templates, States(start, rounds + [r]))
  {
    hide Pass, Steady, Evolves, Within, Reflects;
    assert (rounds + [r])[..|rounds|] == rounds;
    if AllSteady(rounds + [r]) {
      assert Steady((rounds + [r])[|rounds|].begin, r.second);
      assert AllSteady(rounds) by {
        assert forall i | 0 <= i < |rounds| :: rounds[i] == (rounds + [r])[i];
      }
      EvolvedIsWithin(templates, last, r.begin);
      RunGrows(templates, States(start, rounds), r.begin);
      RunGrows(templates, States(start, rounds) + [r.begin], r.end);
    }
  }

  lemma {:induction false} EvolvedIsWithin(templates: seq<Template>, before: seq<Pod>, after: seq<Pod>)
    requires Evolves(before, after)
    ensures Environment(templates, before, after)
  {
    hide Within, Reflects;
    ReflectedIsWithin(templates, after, before);
  }

  /** No template has more pods than it began with and than its MaxCount. */
  ghost predicate Bounded(templates: seq<Template>, before: seq<Pod>, after: seq<Pod>) {
    forall k | 0 <= k < |templates| && templates[k].minCount <= templates[k].maxCount ::
      |PodBag(after, templates[k].caps)| <= Max(|PodBag(before, templates[k].caps)|, templates[k].maxCount)
  }

  lemma {:induction false} RunIsBounded(templates: seq<Template>, states: seq<seq<Pod>>)
    requires IsRun(templates, states)
    ensures Bounded(templates, states[0], states[|states| - 1])
  {
    assert states != [];
    hide IsRun, PodBag;
    forall k | 0 <= k < |templates| && templates[k].minCount <= templates[k].maxCount
      ensures |PodBag(states[|states| - 1], templates[k].caps)| <=
              Max(|PodBag(states[0], templates[k].caps)|, templates[k].maxCount)
    {
      NeverAboveMaxCount(templates, states, k, |states| - 1);
    }
  }

  /**
   The operator at work: passes with whatever requests there are, the cluster changing before and during each of
   them. If the two lists of every pass miss nothing, its states are a run, whatever calls fail; so no template
   ends with more pods than both what it began with and MaxCount.
   */
  method Operate(reconciler: Reconciler, templates: seq<Template>, requests: seq<seq<Request>>)
    returns (ghost rounds: seq<Round>)
    requires reconciler.scaler.Valid() && WellFormed(templates)
    requires forall i | 0 <= i < |requests| :: CleanRequests(requests[i])
    modifies reconciler.scaler
    ensures reconciler.scaler.Valid() && |rounds| == |requests|
    ensures var states := States(old(reconciler.scaler.pods), rounds); reconciler.scaler.pods == states[|states| - 1]
    ensures AllSteady(rounds) ==> IsRun(templates, States(old(reconciler.scaler.pods), rounds))
    ensures AllSteady(rounds) ==> Bounded(templates, old(reconciler.scaler.pods), reconciler.scaler.pods)
  {
    hide *;
    rounds := [];
    ghost var start := reconciler.scaler.pods;
    NothingHappened(templates, start);
    for i := 0 to |requests|
      invariant reconciler.scaler.Valid() && |rounds| == i
      invariant var states := States(start, rounds); reconciler.scaler.pods == states[|states| - 1]
      invariant AllSteady(rounds) ==> IsRun(templates, States(start, rounds))
    {
      ghost var last := reconciler.scaler.pods;
      reconciler.scaler.Elapse();
      ghost var begin := reconciler.scaler.pods;
      ghost var effects, listed, second := reconciler.Reconcile(templates, requests[i]);
      ghost var r := Round(begin, second, reconciler.scaler.pods);
      if Steady(begin, second) {
        SteadyIsPass(templates, requests[i], begin, r.end, effects, listed, reconciler.scaler.seen);
      }
      RoundGrowsRun(templates, start, rounds, last, r);
      rounds := rounds + [r];
    }
    if AllSteady(rounds) {
      RunIsBounded(templates, States(start, rounds));
    }
  }

  lemma {:induction false} NothingHappened(templates: seq<Template>, start: seq<Pod>)
    ensures States(start, []) == [start] && AllSteady([]) && IsRun(templates, [start])
  {
  }

  /**
   The condition on the two lists is needed: a pod that begins to run between them is in neither, and with one
   job and a MaxCount of one the pass creates a second pod.
   */
  lemma {:induction false} StartingPodIsMissed(t: Template, pod: Pod, created: Pod, requests: seq<Request>, key: string,
                                               quantity: string -> bool)
    requires t.minCount == 0 && t.maxCount == 1 && Plain(t) && GoodKey(t, key)
    requires Counted(pod) && pod.phase == Pending && Matches(CapabilitiesOf(pod), t.caps)
    requires JobBag(requests, t.caps) == multiset{key} && IsAgentPod(created, t, Parse(key), quantity)
    ensures var first, second := [pod], [pod.(phase := Running)];
            var e := Effect([key], None, true);
            && Named(first) && Evolves(first, second) && Listed(first, second) == []
            && |PodBag(second, t.caps)| == 1
            && Allowed(BoundsOf(t), PodBag(Listed(first, second), t.caps), JobBag(requests, t.caps), e)
            && |PodBag(second + [created], t.caps)| == 2
  {
    var running := pod.(phase := Running);
    StartingPodIsUnlisted(pod);
    NewPodKey(created, t, key, t, quantity);
    BagOfTwo(running, created, t.caps);
    RunningCountsOnce(pod, t.caps);
    ServesOne(BoundsOf(t), key);
    hide *;
  }

  lemma {:induction false} RunningCountsOnce(pod: Pod, input: Caps)
    requires Counted(pod) && Matches(CapabilitiesOf(pod), input)
    ensures |KeyOf(pod.(phase := Running), input)| == 1
  {
    hide Matches, Print;
  }

  lemma {:induction false} ServesOne(t: Bounds, key: string)
    requires t.min == 0 && t.max == 1
    ensures Allowed(t, multiset{}, multiset{key}, Effect([key], None, true))
  {
    assert multiset([key]) == multiset{key} && multiset{key} - multiset{} == multiset{key};
  }

  lemma {:induction false} BagOfTwo(a: Pod, b: Pod, input: Caps)
    ensures PodBag([], input) == multiset{} && PodBag([a], input) == KeyOf(a, input)
    ensures PodBag([a] + [b], input) == KeyOf(a, input) + KeyOf(b, input)
  {
    hide KeyOf;
    SumAppend([], a, KeyFor(input));
    SumAppend([a], b, KeyFor(input));
    assert [] + [a] == [a];
  }

  /**
   No demand has more pods than jobs: one pass without failures brings the template to exactly
   min(pending jobs, MaxCount) pods, and a second one with the same jobs leaves its pods as they are.
   */
  lemma {:induction false} OnePassSuffices(templates: seq<Template>, requests: seq<Request>, k: nat,
                                           before: seq<Pod>, after: seq<Pod>, last: seq<Pod>,
                                           first: seq<Effect>, second: seq<Effect>)
    requires k < |templates|
    requires PassOf(templates, requests, before, after, first) && |first| == |templates| && first[k].complete
    requires PassOf(templates, requests, after, last, second)
    requires var t := templates[k];
             && PodBag(before, t.caps) <= JobBag(requests, t.caps)
             && t.minCount <= |PodBag(before, t.caps)| <= t.maxCount
    ensures var t := templates[k];
            && |PodBag(after, t.caps)| == Min(Matching(PendingOf(requests), t.caps), t.maxCount)
            && PodBag(last, t.caps) == PodBag(after, t.caps)
  {
    hide PodBag, JobBag, Allowed, After, PassOf;
    var t := templates[k];
    var pods, jobs := PodBag(before, t.caps), JobBag(requests, t.caps);
    TurnInPass(templates, requests, before, after, first, k);
    TurnInPass(templates, requests, after, last, second, k);
    JobsCounted(requests, t.caps);
    var next := if k < |second| then second[k] else Effect([], None, false);
    assert Allowed(BoundsOf(t), PodBag(after, t.caps), jobs, next) by {
      if k >= |second| {
        NothingIsAllowed(BoundsOf(t), PodBag(after, t.caps), jobs);
      }
    }
    OnePassServesAllDemands(BoundsOf(t), pods, jobs, first[k], next);
    NoEffect(PodBag(after, t.caps), next);
  }

  /**
   One demand d, whichever it is, from below: two passes without failures lead to min(Max, max(jobs, Min)) pods
   exactly when d is the template's own demand, or MinCount is reached already, or no job lacks a pod, or
   MaxCount leaves no room to overshoot.
   */
  lemma {:induction false} TwoPassesSufficeExactlyWhen(templates: seq<Template>, requests: seq<Request>, k: nat, d: string,
                                                       before: seq<Pod>, middle: seq<Pod>, after: seq<Pod>,
                                                       first: seq<Effect>, second: seq<Effect>)
    requires k < |templates| && templates[k].minCount <= templates[k].maxCount
    requires PassOf(templates, requests, before, middle, first) && |first| == |templates| && first[k].complete
    requires PassOf(templates, requests, middle, after, second) && |second| == |templates| && second[k].complete
    requires var t := templates[k];
             && Only(d, PodBag(before, t.caps)) && Only(d, JobBag(requests, t.caps))
             && |PodBag(before, t.caps)| <= Min(t.maxCount, Max(Matching(PendingOf(requests), t.caps), t.minCount))
    ensures var t := templates[k];
            var pods, jobs := |PodBag(before, t.caps)|, Matching(PendingOf(requests), t.caps);
            |PodBag(after, t.caps)| == Min(t.maxCount, Max(jobs, t.minCount)) <==>
            d == Print(t.caps) || t.minCount <= pods || jobs <= pods || t.maxCount <= Max(jobs, t.minCount)
  {
    hide PodBag, JobBag, Allowed, After, PassOf, Only, Print;
    var t := templates[k];
    TurnInPass(templates, requests, before, middle, first, k);
    TurnInPass(templates, requests, middle, after, second, k);
    JobsCounted(requests, t.caps);
    TwoPassesReachTarget(BoundsOf(t), d, PodBag(before, t.caps), JobBag(requests, t.caps), first[k], second[k]);
  }

  /** A run of undisturbed passes without failures, with the same requests. */
  ghost predicate QuietRun(templates: seq<Template>, requests: seq<Request>, states: seq<seq<Pod>>,
                           effects: seq<seq<Effect>>) {
    && |states| == |effects| + 1
    && forall i | 0 <= i < |effects| ::
         PassOf(templates, requests, states[i], states[i + 1], effects[i]) && Complete(effects[i], |templates|)
  }

  /** The passes that deleted a pod of the template. */
  ghost function Deleting(effects: seq<seq<Effect>>, k: nat): nat
    requires forall i | 0 <= i < |effects| :: k < |effects[i]|
  {
    if effects == [] then 0
    else
      var n := |effects| - 1;
      Deleting(effects[..n], k) + if effects[n][k].victim.Some? then 1 else 0
  }

  lemma {:induction false} DeletingCounted(effects: seq<seq<Effect>>, k: nat)
    requires forall i | 0 <= i < |effects| :: k < |effects[i]|
    ensures Deleting(effects, k) == Deletions(seq(|effects|, i requires 0 <= i < |effects| => effects[i][k]))
  {
    var turns := seq(|effects|, i requires 0 <= i < |effects| => effects[i][k]);
    if effects != [] {
      var n := |effects| - 1;
      DeletingCounted(effects[..n], k);
      assert turns[..n] == seq(n, i requires 0 <= i < n => effects[..n][i][k]);
    }
  }

  /**
   One demand d, whichever it is, from above, on the cluster's pods: after any number of passes the excess over
   min(Max, max(jobs, Min)) is the initial one less the passes that deleted a pod, and it never undershoots.
   */
  lemma {:induction false} ExcessShrinks(templates: seq<Template>, requests: seq<Request>, k: nat, d: string,
                                         states: seq<seq<Pod>>, effects: seq<seq<Effect>>)
    requires k < |templates| && templates[k].minCount <= templates[k].maxCount
    requires QuietRun(templates, requests, states, effects)
    requires forall i | 0 <= i < |effects| :: k < |effects[i]|
    requires var t := templates[k];
             && Only(d, PodBag(states[0], t.caps)) && Only(d, JobBag(requests, t.caps))
             && |PodBag(states[0], t.caps)| >= Min(t.maxCount, Max(Matching(PendingOf(requests), t.caps), t.minCount))
    ensures var t := templates[k];
            |PodBag(states[|effects|], t.caps)| == |PodBag(states[0], t.caps)| - Deleting(effects, k) >=
            Min(t.maxCount, Max(Matching(PendingOf(requests), t.caps), t.minCount))
  {
    hide PodBag, JobBag, Allowed, After, PassOf, Only;
    var t := templates[k];
    var bags := seq(|states|, i requires 0 <= i < |states| => PodBag(states[i], t.caps));
    var turns := seq(|effects|, i requires 0 <= i < |effects| => effects[i][k]);
    forall i | 0 <= i < |effects|
      ensures Allowed(BoundsOf(t), bags[i], JobBag(requests, t.caps), turns[i]) && turns[i].complete
      ensures bags[i + 1] == After(bags[i], turns[i])
    {
      TurnInPass(templates, requests, states[i], states[i + 1], effects[i], k);
    }
    JobsCounted(requests, t.caps);
    DeletingCounted(effects, k);
    ExcessShrinksPerDeletion(BoundsOf(t), d, JobBag(requests, t.caps), bags, turns);
  }

  lemma {:induction false} JobsCounted(requests: seq<Request>, input: Caps)
    ensures |JobBag(requests, input)| == Matching(PendingOf(requests), input)
  {
    BagSize(PendingOf(requests), input);
  }
}
