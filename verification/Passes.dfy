/** A whole scaling pass over all templates, and runs of passes interleaved with the cluster's own changes. */
module Passes {
  import opened Numbers
  import opened Spec
  import opened Capabilities
  import opened Index
  import opened Requests
  import opened Collisions
  import opened Bags
  import opened Tally
  import opened Convergence
  import opened Listing
  import opened Scaler

  /** Templates that can be told apart by their pods, and whose new pods count. */
  ghost predicate WellFormed(templates: seq<Template>) {
    && (forall i | 0 <= i < |templates| :: Plain(templates[i]))
    && (forall i, j | 0 <= i < j < |templates| :: templates[i].caps != templates[j].caps)
  }

  ghost predicate Plain(t: Template) {
    Clean(t.caps) && NoEmptyValue(t.caps) && EXTRA_CONTAINERS !in t.caps && TERMINATING !in t.annotations
  }

  ghost predicate CleanRequests(requests: seq<Request>) {
    forall i | 0 <= i < |PendingOf(requests)| :: Clean(PendingOf(requests)[i].caps)
  }

  // A demand string whose pod is found again under the same string.
  ghost predicate GoodKey(t: Template, key: string) {
    Answers(Parse(key), t.caps, key)
  }

  lemma {:induction false} NewPodIsCounted(pod: Pod, t: Template, caps: Caps, quantity: string -> bool)
    requires IsAgentPod(pod, t, caps, quantity) && Clean(caps) && TERMINATING !in t.annotations
    ensures Counted(pod) && CapabilitiesOf(pod) == caps
  {
    ParsePrint(caps);
    assert CAPABILITIES != TERMINATING by { assert CAPABILITIES[0] != TERMINATING[0]; }
  }

  lemma {:induction false} HomeKeyIsGood(t: Template)
    requires Clean(t.caps)
    ensures GoodKey(t, Print(t.caps)) && Parse(Print(t.caps)) == t.caps
  {
    ParsePrint(t.caps);
  }

  lemma {:induction false} JobKeysAreGood<T>(items: seq<Tagged<T>>, t: Template, key: string)
    requires forall i | 0 <= i < |items| :: Clean(items[i].caps)
    requires key in Bags.Bag(items, t.caps)
    ensures GoodKey(t, key)
  {
    if forall i | 0 <= i < |items| :: !Answers(items[i].caps, t.caps, key) {
      NobodyAnswers(items, t.caps, key);
    } else {
      var i :| 0 <= i < |items| && Answers(items[i].caps, t.caps, key);
      ParsePrint(items[i].caps);
    }
  }

  // What one new pod adds to the bag of its template, and that it adds nothing to another's.
  lemma {:induction false} NewPodKey(pod: Pod, t: Template, key: string, u: Template, quantity: string -> bool)
    requires IsAgentPod(pod, t, Parse(key), quantity) && GoodKey(t, key) && Plain(t) && Plain(u)
    ensures KeyOf(pod, u.caps) == if u.caps == t.caps then multiset{key} else multiset{}
  {
    ParseIsClean(key);
    NewPodIsCounted(pod, t, Parse(key), quantity);
    if Matches(Parse(key), u.caps) {
      TemplatesDoNotOverlap(t.caps, u.caps, Parse(key));
    }
  }

  lemma {:induction false} GrownBag(before: seq<Pod>, after: seq<Pod>, t: Template, keys: seq<string>, home: bool,
                                    u: Template, quantity: string -> bool)
    requires Grown(before, after, t, keys, home, quantity) && forall k | k in keys :: GoodKey(t, k)
    requires Plain(t) && Plain(u)
    ensures PodBag(after, u.caps) ==
            PodBag(before, u.caps) + if u.caps == t.caps then multiset(keys) else multiset{}
  {
    hide Print;
    var added := after[|before|..];
    HomeKeyIsGood(t);
    forall i | 0 <= i < |added|
      ensures KeyFor(u.caps)(added[i]) == if u.caps == t.caps then multiset{keys[i]} else multiset{}
    {
      assert added[i] == after[|before| + i] && keys[i] in keys;
      NewPodKey(added[i], t, keys[i], u, quantity);
    }
    SumOfKeys(added, keys, KeyFor(u.caps), u.caps == t.caps);
    SumConcat(before, added, KeyFor(u.caps));
    assert after == before + added;
  }

  // A listed pod that was deleted counted for its template, under its own demand string, and for no other.
  lemma {:induction false} VictimKey(pod: Pod, matching: map<string, seq<Pod>>, key: string, listed: seq<Pod>,
                                     t: Template, u: Template)
    requires key in matching && pod in matching[key]
    requires matching == MatchMap(GroupAll(TagPods(listed)), t.caps) && forall p | p in listed :: Counted(p)
    requires Plain(t) && Plain(u)
    ensures KeyOf(pod, u.caps) == if u.caps == t.caps then multiset{key} else multiset{}
    ensures KeyOf(pod.(deleting := true), u.caps) == multiset{}
    ensures Matches(CapabilitiesOf(pod), t.caps)
  {
    FoundIsMatching(TagPods(listed), t.caps, key, pod);
    assert pod in listed;
    if Matches(CapabilitiesOf(pod), u.caps) {
      TemplatesDoNotOverlap(t.caps, u.caps, CapabilitiesOf(pod));
    }
  }

  lemma {:induction false} OnlyOneChanged<T>(before: seq<T>, i: nat, x: T)
    requires i < |before|
    ensures forall p | p in before && p !in before[i := x] :: p == before[i]
  {
    var after := before[i := x];
    assert forall j | 0 <= j < |before| && j != i :: after[j] == before[j];
  }

  lemma {:induction false} ShrunkBag(before: seq<Pod>, after: seq<Pod>, matching: map<string, seq<Pod>>, key: string,
                                     listed: seq<Pod>, t: Template, u: Template)
    requires Shrunk(before, after, matching, key)
    requires matching == MatchMap(GroupAll(TagPods(listed)), t.caps) && forall p | p in listed :: Counted(p)
    requires Plain(t) && Plain(u)
    ensures PodBag(after, u.caps) + (if u.caps == t.caps then multiset{key} else multiset{}) == PodBag(before, u.caps)
    ensures forall p | p in before && p !in after :: Matches(CapabilitiesOf(p), t.caps)
  {
    var i :| 0 <= i < |before| && before[i] in matching[key] && after == before[i := before[i].(deleting := true)];
    VictimKey(before[i], matching, key, listed, t, u);
    SumUpdate(before, i, before[i].(deleting := true), KeyFor(u.caps));
    OnlyOneChanged(before, i, before[i].(deleting := true));
  }

  ghost function PodBags(templates: seq<Template>, pods: seq<Pod>): seq<Keys> {
    seq(|templates|, i requires 0 <= i < |templates| => PodBag(pods, templates[i].caps))
  }

  ghost function JobBags(templates: seq<Template>, requests: seq<Request>): seq<Keys> {
    seq(|templates|, i requires 0 <= i < |templates| => JobBag(requests, templates[i].caps))
  }

  ghost function AllBounds(templates: seq<Template>): seq<Bounds> {
    seq(|templates|, i requires 0 <= i < |templates| => BoundsOf(templates[i]))
  }

  // A pod that is not there any more as it was belongs to a template that was handled.
  ghost predicate Untouched(templates: seq<Template>, before: seq<Pod>, now: seq<Pod>, k: nat)
    requires k <= |templates|
  {
    forall p | p in before && p !in now :: exists i | 0 <= i < k :: Matches(CapabilitiesOf(p), templates[i].caps)
  }

  lemma {:induction false} GrownBags(templates: seq<Template>, k: nat, middle: seq<Pod>, after: seq<Pod>, e: Effect,
                                     home: bool, quantity: string -> bool)
    requires WellFormed(templates) && k < |templates|
    requires e.victim.None? && Grown(middle, after, templates[k], e.created, home, quantity)
    requires forall key | key in e.created :: GoodKey(templates[k], key)
    ensures PodBags(templates, after) ==
            PodBags(templates, middle)[k := After(PodBag(middle, templates[k].caps), e)]
  {
    hide Print, Plain, PodBag, Grown, GoodKey, Shrunk, Counted, MatchMap;
    forall i | 0 <= i < |templates|
      ensures PodBag(after, templates[i].caps) ==
              if i == k then After(PodBag(middle, templates[k].caps), e) else PodBag(middle, templates[i].caps)
    {
      GrownBag(middle, after, templates[k], e.created, home, templates[i], quantity);
      AfterCases(PodBag(middle, templates[k].caps), e, PodBag(after, templates[k].caps));
    }
  }

  lemma {:induction false} ShrunkBags(templates: seq<Template>, k: nat, middle: seq<Pod>, after: seq<Pod>, e: Effect,
                                      matching: map<string, seq<Pod>>, listed: seq<Pod>)
    requires WellFormed(templates) && k < |templates| && forall p | p in listed :: Counted(p)
    requires e.created == [] && e.victim.Some? && Shrunk(middle, after, matching, e.victim.value)
    requires matching == MatchMap(GroupAll(TagPods(listed)), templates[k].caps)
    ensures PodBags(templates, after) ==
            PodBags(templates, middle)[k := After(PodBag(middle, templates[k].caps), e)]
  {
    hide Print, Plain, PodBag, Grown, GoodKey, Shrunk, Counted, MatchMap;
    forall i | 0 <= i < |templates|
      ensures PodBag(after, templates[i].caps) ==
              if i == k then After(PodBag(middle, templates[k].caps), e) else PodBag(middle, templates[i].caps)
    {
      ShrunkBag(middle, after, matching, e.victim.value, listed, templates[k], templates[i]);
      AfterCases(PodBag(middle, templates[k].caps), e, PodBag(after, templates[k].caps));
    }
  }

  /** A pass that ends early, because an API call failed, still has handled a prefix of the templates. */
  ghost predicate PassOf(templates: seq<Template>, requests: seq<Request>, before: seq<Pod>, after: seq<Pod>,
                         effects: seq<Effect>) {
    && Midway(AllBounds(templates), PodBags(templates, before), JobBags(templates, requests),
              PodBags(templates, after), effects)
    && (|effects| < |templates| ==> |effects| > 0 && !effects[|effects| - 1].complete)
  }

  lemma {:induction false} DeletionTouchesOne(templates: seq<Template>, k: nat, before: seq<Pod>, middle: seq<Pod>,
                                              after: seq<Pod>, matching: map<string, seq<Pod>>, key: string,
                                              listed: seq<Pod>)
    requires WellFormed(templates) && k < |templates| && forall p | p in listed :: Counted(p)
    requires Untouched(templates, before, middle, k) && Shrunk(middle, after, matching, key)
    requires matching == MatchMap(GroupAll(TagPods(listed)), templates[k].caps)
    ensures Untouched(templates, before, after, k + 1)
  {
    hide Print, Plain, Shrunk, Counted, MatchMap;
    ShrunkBag(middle, after, matching, key, listed, templates[k], templates[k]);
  }

  lemma {:induction false} GrowthTouchesNone(templates: seq<Template>, k: nat, before: seq<Pod>, middle: seq<Pod>,
                                             after: seq<Pod>)
    requires k < |templates| && Untouched(templates, before, middle, k)
    requires |middle| <= |after| && after[..|middle|] == middle
    ensures Untouched(templates, before, after, k + 1)
  {
    hide Matches;
    forall p | p in middle ensures p in after {
      assert p in after[..|middle|];
    }
  }

  // The pods listed before the pass that match the k-th template are all still there as they were.
  lemma {:induction false} MatchingStillThere(templates: seq<Template>, k: nat, before: seq<Pod>, now: seq<Pod>,
                                              listed: seq<Pod>, s: string, pod: Pod)
    requires WellFormed(templates) && k < |templates| && Untouched(templates, before, now, k)
    requires forall p | p in listed :: p in before
    requires var m := MatchMap(GroupAll(TagPods(listed)), templates[k].caps); s in m && pod in m[s]
    ensures pod in now
  {
    FoundIsMatching(TagPods(listed), templates[k].caps, s, pod);
    assert pod in listed;
    if pod !in now {
      var i :| 0 <= i < k && Matches(CapabilitiesOf(pod), templates[i].caps);
      TemplatesDoNotOverlap(templates[i].caps, templates[k].caps, CapabilitiesOf(pod));
    }
  }

  // The effect of one template's turn on the bags of all templates.
  lemma {:induction false} TurnOfOne(templates: seq<Template>, requests: seq<Request>, k: nat, before: seq<Pod>,
                                     middle: seq<Pod>, after: seq<Pod>, listed: seq<Pod>, e: Effect,
                                     home: bool, quantity: string -> bool)
    requires WellFormed(templates) && CleanRequests(requests) && k < |templates|
    requires forall p | p in listed :: Counted(p)
    requires Untouched(templates, before, middle, k)
    requires var m := MatchMap(GroupAll(TagPods(listed)), templates[k].caps);
             e.victim.Some? ==> e.created == [] && Shrunk(middle, after, m, e.victim.value)
    requires e.victim.None? ==> Grown(middle, after, templates[k], e.created, home, quantity)
    requires e.victim.None? && !home ==>
               multiset(e.created) <= JobBag(requests, templates[k].caps) - PodBag(before, templates[k].caps)
    ensures PodBags(templates, after) ==
            PodBags(templates, middle)[k := After(PodBag(middle, templates[k].caps), e)]
    ensures Untouched(templates, before, after, k + 1)
  {
    hide Print, Plain, PodBag, GoodKey, Shrunk, Counted, MatchMap, Untouched, After;
    if e.victim.Some? {
      var m := MatchMap(GroupAll(TagPods(listed)), templates[k].caps);
      ShrunkBags(templates, k, middle, after, e, m, listed);
      DeletionTouchesOne(templates, k, before, middle, after, m, e.victim.value, listed);
    } else {
      forall key | key in e.created ensures GoodKey(templates[k], key) {
        CreatedKeyIsGood(templates[k], requests, PodBag(before, templates[k].caps), e.created, key, home);
      }
      GrownBags(templates, k, middle, after, e, home, quantity);
      GrowthTouchesNone(templates, k, before, middle, after);
    }
  }

  lemma {:induction false} CreatedKeyIsGood(t: Template, requests: seq<Request>, pods: Keys, created: seq<string>,
                                            key: string, home: bool)
    requires Plain(t) && CleanRequests(requests) && key in created
    requires home ==> forall i | 0 <= i < |created| :: created[i] == Print(t.caps)
    requires !home ==> multiset(created) <= JobBag(requests, t.caps) - pods
    ensures GoodKey(t, key)
  {
    hide Print, GoodKey;
    HomeKeyIsGood(t);
    if !home {
      assert key in multiset(created);
      assert key in JobBag(requests, t.caps);
      JobKeysAreGood(PendingOf(requests), t, key);
    }
  }

  /** Every template had its turn, and nothing failed. */
  ghost predicate Complete(effects: seq<Effect>, n: nat) {
    |effects| == n && forall k | 0 <= k < n :: effects[k].complete
  }

  lemma {:induction false} NothingToComplete()
    ensures Complete([], 0)
  {
  }

  lemma {:induction false} OneMoreComplete(effects: seq<Effect>, e: Effect, n: nat)
    ensures Complete(effects, n) && e.complete ==> Complete(effects + [e], n + 1)
  {
  }

  class Reconciler {
    const scaler: PodScaler

    constructor (scaler: PodScaler)
      ensures this.scaler == scaler
    {
      this.scaler := scaler;
    }

    /**
     The scaling loop of a reconcile pass, on the jobs as they are when it begins and on the pods as two lists
     show them, while the cluster changes between any two calls. The pods that were seen change by allowed
     effects only; what counts in the end is part of that if no pod began to run between the two lists, and the
     pass is exact if the cluster stood still.
     */
    method Reconcile(templates: seq<Template>, requests: seq<Request>)
      returns (ghost effects: seq<Effect>, ghost listed: seq<Pod>, ghost second: seq<Pod>)
      requires scaler.Valid() && WellFormed(templates) && CleanRequests(requests)
      modifies scaler
      ensures scaler.Valid() && Evolves(old(scaler.pods), second) && listed == Listed(old(scaler.pods), second)
      ensures PassOf(templates, requests, listed, scaler.seen, effects)
      ensures Within(templates, listed, old(scaler.pods))
      ensures Steady(old(scaler.pods), second) ==> Within(templates, scaler.pods, scaler.seen)
      ensures scaler.still ==> PassOf(templates, requests, old(scaler.pods), scaler.pods, effects)
      ensures scaler.failures == old(scaler.failures) ==> Complete(effects, |templates|)
      ensures scaler.errors == old(scaler.errors) ==> |effects| == |templates|
    {
      hide *;
      ghost var before := scaler.pods;
      StartsNamed(scaler);
      var pods;
      pods, second := scaler.ListCounted();
      listed := pods;
      PassStarts(templates, requests, before, second);
      var podGroups := NewRunningPodsWrapper(pods);
      var pending := GetPendingJobs(requests);
      var jobGroups := pending.groups;
      effects := [];
      NothingToComplete();
      for k := 0 to |templates|
        invariant scaler.Valid() && |effects| == k && scaler.failures >= old(scaler.failures)
        invariant scaler.errors >= old(scaler.errors)
        invariant scaler.failures == old(scaler.failures) ==> Complete(effects, k)
        invariant (scaler.still ==> second == before) && (scaler.steady <==> Steady(before, second))
        invariant Untouched(templates, listed, scaler.seen, k)
        invariant Midway(AllBounds(templates), PodBags(templates, listed), JobBags(templates, requests),
                         PodBags(templates, scaler.seen), effects)
      {
        ghost var e;
        var stop;
        e, stop := ScaleOne(templates, k, requests, podGroups, jobGroups, listed, effects);
        OneMoreComplete(effects, e, k);
        effects := effects + [e];
        if stop {
          EndsEarly(templates, requests, listed, scaler.seen, effects);
          PassEnds(scaler, templates, requests, before, second, effects);
          return;
        }
      }
      EndsFully(templates, requests, listed, scaler.seen, effects);
      PassEnds(scaler, templates, requests, before, second, effects);
    }

    // The turn of the k-th template.
    method ScaleOne(templates: seq<Template>, k: nat, requests: seq<Request>,
                    podGroups: seq<Group<Pod>>, jobGroups: seq<Group<Request>>,
                    ghost listed: seq<Pod>, ghost effects: seq<Effect>)
      returns (ghost e: Effect, stop: bool)
      requires scaler.Valid() && WellFormed(templates) && CleanRequests(requests) && |effects| == k < |templates|
      requires forall p | p in listed :: Counted(p)
      requires podGroups == GroupAll(TagPods(listed)) && jobGroups == GroupAll(PendingOf(requests))
      requires Untouched(templates, listed, scaler.seen, k)
      requires Midway(AllBounds(templates), PodBags(templates, listed), JobBags(templates, requests),
                      PodBags(templates, scaler.seen), effects)
      modifies scaler`pods, scaler`used, scaler`seen, scaler`still, scaler`failures, scaler`errors, scaler`attempts
      ensures scaler.Valid() && Untouched(templates, listed, scaler.seen, k + 1) && (stop ==> !e.complete)
      ensures scaler.still ==> old(scaler.still)
      ensures var t := templates[k]; t.minCount <= t.maxCount ==>
                scaler.attempts <= old(scaler.attempts) + Max(0, t.maxCount - |PodBag(listed, t.caps)|)
      ensures scaler.failures >= old(scaler.failures) && (e.complete <==> scaler.failures == old(scaler.failures))
      ensures scaler.errors >= old(scaler.errors) && (stop <==> scaler.errors > old(scaler.errors))
      ensures Midway(AllBounds(templates), PodBags(templates, listed), JobBags(templates, requests),
                     PodBags(templates, scaler.seen), effects + [e])
    {
      hide Print, Plain, PodBag, GoodKey, Shrunk, Counted, MatchMap, Untouched, After, WellFormed, CleanRequests;
      hide Represents, Midway, Allowed, GroupAll;
      var t := templates[k];
      var matching := GetInexactMatch(podGroups, t.caps);
      var jobs := GetInexactMatch(jobGroups, t.caps);
      ghost var middle := scaler.seen;
      PodsRepresented(listed, t.caps);
      JobsRepresented(requests, t.caps);
      forall s, p | s in matching && p in matching[s] ensures p in scaler.seen {
        MatchingStillThere(templates, k, listed, middle, listed, s, p);
      }
      e, stop := scaler.ScaleTemplate(t, matching, jobs, PodBag(listed, t.caps), JobBag(requests, t.caps));
      TurnOfOne(templates, requests, k, listed, middle, scaler.seen, listed, e,
                |PodBag(listed, t.caps)| < t.minCount, scaler.quantity);
      OneMore(AllBounds(templates), PodBags(templates, listed), JobBags(templates, requests),
              PodBags(templates, middle), effects, e, PodBags(templates, scaler.seen));
    }
  }

  /** What counts for any of the templates is part of what counted. */
  ghost predicate Within(templates: seq<Template>, pods: seq<Pod>, seen: seq<Pod>) {
    forall i | 0 <= i < |templates| :: PodBag(pods, templates[i].caps) <= PodBag(seen, templates[i].caps)
  }

  lemma {:induction false} ReflectedIsWithin(templates: seq<Template>, pods: seq<Pod>, seen: seq<Pod>)
    requires Named(pods) && Reflects(pods, seen)
    ensures Within(templates, pods, seen)
  {
    hide PodBag, Reflects;
    forall i | 0 <= i < |templates| ensures PodBag(pods, templates[i].caps) <= PodBag(seen, templates[i].caps) {
      ReflectedCountsNoMore(pods, seen, templates[i].caps);
    }
  }

  lemma {:induction false} WithinBothWays(templates: seq<Template>, a: seq<Pod>, b: seq<Pod>)
    requires Within(templates, a, b) && Within(templates, b, a)
    ensures PodBags(templates, a) == PodBags(templates, b)
  {
    hide PodBag;
    forall i | 0 <= i < |templates| ensures PodBag(a, templates[i].caps) == PodBag(b, templates[i].caps) {
      assert PodBag(a, templates[i].caps) <= PodBag(b, templates[i].caps) <= PodBag(a, templates[i].caps);
    }
  }

  lemma {:induction false} StartsNamed(scaler: PodScaler)
    requires scaler.Valid()
    ensures Named(scaler.pods)
  {
  }

  lemma {:induction false} PassStarts(templates: seq<Template>, requests: seq<Request>, first: seq<Pod>, second: seq<Pod>)
    requires Named(first) && Evolves(first, second)
    ensures var listed := Listed(first, second);
            && (forall p | p in listed :: Counted(p)) && Within(templates, listed, first)
            && Untouched(templates, listed, listed, 0)
            && Midway(AllBounds(templates), PodBags(templates, listed), JobBags(templates, requests),
                      PodBags(templates, listed), [])
  {
    ListedMembers(first, second);
    ListedExactlyWhenSteady(first, second);
    hide Listed, Evolves, Steady, PodBag;
    ReflectedIsWithin(templates, Listed(first, second), first);
  }

  lemma {:induction false} EndsFully(templates: seq<Template>, requests: seq<Request>, before: seq<Pod>,
                                     after: seq<Pod>, effects: seq<Effect>)
    requires Midway(AllBounds(templates), PodBags(templates, before), JobBags(templates, requests),
                    PodBags(templates, after), effects)
    requires |effects| == |templates|
    ensures PassOf(templates, requests, before, after, effects)
  {
  }

  // What the pass as seen says of the cluster.
  lemma {:induction false} PassEnds(scaler: PodScaler, templates: seq<Template>, requests: seq<Request>, first: seq<Pod>,
                                    second: seq<Pod>, effects: seq<Effect>)
    requires scaler.Valid() && Named(first) && Evolves(first, second)
    requires PassOf(templates, requests, Listed(first, second), scaler.seen, effects)
    requires scaler.still ==> second == first
    ensures scaler.steady ==> Within(templates, scaler.pods, scaler.seen)
    ensures scaler.still ==> PassOf(templates, requests, first, scaler.pods, effects)
  {
    hide PassOf, PodBag, Evolves, Listed, Reflects, Within;
    if scaler.steady {
      ReflectedIsWithin(templates, scaler.pods, scaler.seen);
    }
    if scaler.still {
      ReflectedIsWithin(templates, scaler.seen, scaler.pods);
      WithinBothWays(templates, scaler.pods, scaler.seen);
      StillIsSteady(first);
      ListedExactlyWhenSteady(first, first);
      ReflectedIsWithin(templates, Listed(first, first), first);
      ReflectedIsWithin(templates, first, Listed(first, first));
      WithinBothWays(templates, first, Listed(first, first));
      SameBags(templates, requests, Listed(first, first), scaler.seen, first, scaler.pods, effects);
    }
  }

  lemma {:induction false} SameBags(templates: seq<Template>, requests: seq<Request>, before: seq<Pod>, after: seq<Pod>,
                                    first: seq<Pod>, last: seq<Pod>, effects: seq<Effect>)
    requires PassOf(templates, requests, before, after, effects)
    requires PodBags(templates, before) == PodBags(templates, first) && PodBags(templates, after) == PodBags(templates, last)
    ensures PassOf(templates, requests, first, last, effects)
  {
  }

  lemma {:induction false} EndsEarly(templates: seq<Template>, requests: seq<Request>, before: seq<Pod>,
                                     after: seq<Pod>, effects: seq<Effect>)
    requires Midway(AllBounds(templates), PodBags(templates, before), JobBags(templates, requests),
                    PodBags(templates, after), effects)
    requires effects != [] && !effects[|effects| - 1].complete
    ensures PassOf(templates, requests, before, after, effects)
  {
  }

  lemma {:induction false} PodsRepresented(listed: seq<Pod>, input: Caps)
    requires forall p | p in listed :: Counted(p)
    ensures Represents(MatchMap(GroupAll(TagPods(listed)), input), PodBag(listed, input))
  {
    PodsAlwaysPrintApart(listed, input);
    LookupRepresents(TagPods(listed), input);
    BagOfListedPods(listed, input);
  }

  lemma {:induction false} JobsRepresented(requests: seq<Request>, input: Caps)
    requires CleanRequests(requests)
    ensures Represents(MatchMap(GroupAll(PendingOf(requests)), input), JobBag(requests, input))
  {
    CleanGroupsPrintApart(PendingOf(requests), input);
    LookupRepresents(PendingOf(requests), input);
  }
}
