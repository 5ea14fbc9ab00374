/** The scaling part of a reconcile pass: the per-template loop over the listed pods and pending jobs. */
module Scaler {
  import opened Numbers
  import opened Outcomes
  import opened Spec
  import opened Capabilities
  import opened Index
  import opened Requests
  import opened Listing
  import opened Bags
  import opened Convergence
  import ExtraContainers
  import Lease

  ghost function JobBag(requests: seq<Request>, input: Caps): multiset<string> {
    Bags.Bag(PendingOf(requests), input)
  }

  ghost function BoundsOf(t: Template): Bounds {
    Bounds(t.minCount, t.maxCount, Print(t.caps))
  }

  /** One more request: it counts for the templates it matches, under its printed demands, unless it is finished. */
  lemma {:induction false} OneMoreRequest(requests: seq<Request>, r: Request, input: Caps)
    ensures JobBag(requests + [r], input) ==
            JobBag(requests, input)
            + if !r.finished && Matches(DemandsOf(r.demands), input) then multiset{Print(DemandsOf(r.demands))} else multiset{}
  {
    var pending := PendingOf(requests);
    PendingStep(requests, r);
    hide DemandsOf, Matches, Print, PendingOf;
    if !r.finished {
      assert (pending + [TagRequest(r)])[..|pending|] == pending;
    } else {
      assert pending + [] == pending;
    }
  }

  datatype Creation = Created | OutOfVolumes | ApiError

  /** The pod object createAgent submits for these capabilities. */
  ghost predicate IsAgentPod(pod: Pod, t: Template, caps: Caps, quantity: string -> bool) {
    && pod.annotations == t.annotations[CAPABILITIES := Print(caps)]
    && pod.phase == Pending && !pod.deleting && pod.statuses == []
    && if EXTRA_CONTAINERS in caps then
         var extra := ExtraContainers.Read(caps[EXTRA_CONTAINERS], quantity);
         extra.Some? && pod.containers == t.containers + extra.value
       else pod.containers == t.containers
  }

  /** An agent pod is new, tells its capabilities, and has all that its template has. */
  lemma {:induction false} AgentPodCarries(pod: Pod, t: Template, caps: Caps, quantity: string -> bool)
    requires IsAgentPod(pod, t, caps, quantity) && Clean(caps)
    ensures var name := "AzurePipelinesCapabilities";
            && name in pod.annotations && Parse(pod.annotations[name]) == caps
            && pod.annotations - {name} == t.annotations - {name}
    ensures t.containers <= pod.containers && ("ExtraAgentContainers" !in caps ==> t.containers == pod.containers)
    ensures pod.phase == Pending && !pod.deleting && pod.statuses == []
  {
    ParsePrint(caps);
    hide Parse, Print, Clean;
  }

  /**
   The containers a request asks for end up in the pod that is made for it, after those of the template, wherever
   the demand stands in the request, as long as no later one is about extra containers too.
   */
  lemma {:induction false} ContainersInPod(pod: Pod, t: Template, before: seq<string>, containers: seq<Container>,
                                           after: seq<string>, quantity: string -> bool)
    requires forall c | c in containers :: ExtraContainers.Writable(c, quantity)
    requires forall d | d in after :: ExtraContainers.Silent(d)
    requires Clean(DemandsOf(before + after) - {EXTRA_CONTAINERS})
    requires var demands := before + [EXTRA_CONTAINERS + EQUALS + ExtraContainers.Write(containers)] + after;
             IsAgentPod(pod, t, Parse(Print(DemandsOf(demands))), quantity)
    ensures pod.containers == t.containers + containers
  {
    ExtraContainers.ContainersArrive(before, containers, after, quantity);
    hide Clean, DemandsOf, Parse, Print;
  }

  /** The pods grew by one agent pod per demand string; the home string stands for the template's own capabilities. */
  ghost predicate Grown(before: seq<Pod>, after: seq<Pod>, t: Template, keys: seq<string>, home: bool,
                        quantity: string -> bool) {
    && |after| == |before| + |keys| && after[..|before|] == before
    && (home ==> forall i | 0 <= i < |keys| :: keys[i] == Print(t.caps))
    && forall i | |before| <= i < |after| ::
         IsAgentPod(after[i], t, if home then t.caps else Parse(keys[i - |before|]), quantity)
  }

  lemma {:induction false} GrownMore(before: seq<Pod>, middle: seq<Pod>, after: seq<Pod>, t: Template,
                                     keys: seq<string>, key: string, quantity: string -> bool)
    requires Grown(before, middle, t, keys, false, quantity)
    requires |after| == |middle| + 1 && after[..|middle|] == middle
    requires IsAgentPod(after[|middle|], t, Parse(key), quantity)
    ensures Grown(before, after, t, keys + [key], false, quantity)
  {
    assert after[..|before|] == middle[..|before|];
    forall i | |before| <= i < |after|
      ensures IsAgentPod(after[i], t, Parse((keys + [key])[i - |before|]), quantity)
    {
      if i < |middle| {
        assert after[i] == middle[i] && (keys + [key])[i - |before|] == keys[i - |before|];
      }
    }
  }

  /** One pod of the group with this demand string was marked for deletion. */
  ghost predicate Shrunk(before: seq<Pod>, after: seq<Pod>, matching: map<string, seq<Pod>>, key: string) {
    key in matching &&
    exists i | 0 <= i < |before| :: before[i] in matching[key] && after == before[i := before[i].(deleting := true)]
  }

  // What was created so far, and what is still to be looked at, is all wanted.
  ghost predicate Served(created: seq<string>, want: seq<string>, i: nat)
    requires i <= |want|
    ensures Served(created, want, i) ==> multiset(created) <= multiset(want)
  {
    multiset(created) + multiset(want[i..]) <= multiset(want)
  }

  lemma {:induction false} ServedStep(created: seq<string>, want: seq<string>, i: nat)
    requires i < |want| && Served(created, want, i)
    ensures Served(created, want, i + 1) && Served(created + [want[i]], want, i + 1)
  {
    assert want[i..] == [want[i]] + want[i + 1..];
  }

  lemma {:induction false} NothingGrown(pods: seq<Pod>, t: Template, home: bool, quantity: string -> bool)
    ensures Grown(pods, pods, t, [], home, quantity)
  {
  }

  lemma {:induction false} CreationStarts(pods: seq<Pod>, t: Template, want: seq<string>, quantity: string -> bool)
    ensures Served([], want, 0) && Grown(pods, pods, t, [], false, quantity)
  {
    assert want[0..] == want;
  }

  lemma {:induction false} MissingIsDifference(matching: map<string, seq<Pod>>, jobs: map<string, seq<Request>>,
                                               podBag: Keys, jobBag: Keys, want: seq<string>)
    requires Represents(matching, podBag) && Represents(jobs, jobBag)
    requires forall s :: multiset(want)[s] == Max(0, Len(jobs, s) - Len(matching, s))
    ensures multiset(want) == jobBag - podBag && |want| == |jobBag - podBag|
  {
    assert |multiset(want)| == |want|;
  }

  ghost predicate NamesIn(pods: seq<Pod>, names: set<string>) {
    forall i | 0 <= i < |pods| :: pods[i].name in names
  }

  // A pod that is created is new to what is there and to what was seen.
  lemma {:induction false} CreatedReflects(pods: seq<Pod>, seen: seq<Pod>, pod: Pod)
    requires Reflects(pods, seen)
    ensures Reflects(pods + [pod], seen + [pod])
  {
    forall i | 0 <= i < |pods| && Counted(pods[i]) ensures HasTwin(seen + [pod], pods[i]) {
      assert HasTwin(seen, pods[i]);
      var j :| 0 <= j < |seen| && Twins(seen[j], pods[i]);
      assert (seen + [pod])[j] == seen[j];
    }
    if Counted(pod) {
      assert (seen + [pod])[|seen|] == pod && Twins(pod, pod);
    }
  }

  // A pod that is deleted no longer counts, neither there nor as seen.
  lemma {:induction false} DeletedReflects(pods: seq<Pod>, i: nat, seen: seq<Pod>, j: nat)
    requires Named(pods) && Reflects(pods, seen) && i < |pods| && j < |seen| && pods[i].name == seen[j].name
    ensures Reflects(pods[i := pods[i].(deleting := true)], seen[j := seen[j].(deleting := true)])
  {
    var after, others := pods[i := pods[i].(deleting := true)], seen[j := seen[j].(deleting := true)];
    forall k | 0 <= k < |after| && Counted(after[k]) ensures HasTwin(others, after[k]) {
      assert k != i && HasTwin(seen, pods[k]);
      var m :| 0 <= m < |seen| && Twins(seen[m], pods[k]);
      assert m != j && others[m] == seen[m];
    }
  }

  /**
   The pods of the cluster, and, beside them, the pods as the operator believes them to be: those it listed at
   the beginning of the pass, changed by its own creations and deletions only.
   */
  class PodScaler {
    var pods: seq<Pod>
    // All names there have been: a name is never used twice.
    var used: set<string>
    const quantity: string -> bool
    ghost var seen: seq<Pod>
    // No pod that counts was missed by the lists; nothing has changed on its own since the pass began.
    ghost var steady: bool
    ghost var still: bool
    // How many steps have failed so far, and how many of them for other reasons than exhausted volumes.
    ghost var failures: nat
    ghost var errors: nat
    // How many creations were attempted so far.
    ghost var attempts: nat

    ghost predicate Valid()
      reads this`pods, this`used, this`seen, this`steady, this`still
    {
      && Named(pods) && Named(seen) && NamesIn(pods, used) && NamesIn(seen, used)
      && (steady ==> Reflects(pods, seen))
      && (still ==> steady && Reflects(seen, pods))
    }

    constructor (quantity: string -> bool)
      ensures Valid() && pods == [] && this.quantity == quantity
    {
      this.quantity := quantity;
      pods, used, seen, steady, still, failures, errors, attempts := [], {}, [], true, true, 0, 0, 0;
    }

    // What the cluster does on its own, between any two calls.
    method Elapse()
      requires Valid()
      modifies this`pods, this`still
      ensures Valid() && Evolves(old(pods), pods) && (still <==> old(still) && pods == old(pods))
    {
      hide Evolves, Reflects, NamesIn;
      NothingEvolves(pods);
      var next: seq<Pod> := *;
      if Evolves(pods, next) && next != pods {
        EvolvedReflects(pods, next);
        if steady {
          ReflectsTwice(next, pods, seen);
        }
        NamesStay(pods, next, used);
        pods, still := next, false;
      }
    }

    /**
     The pods the scaler works on: the running ones of one moment and the pending ones of a later one. Nothing
     that counts is missed exactly when no pod began to run in between.
     */
    method ListCounted() returns (listed: seq<Pod>, ghost second: seq<Pod>)
      requires Valid()
      modifies this`pods, this`seen, this`steady, this`still
      ensures Valid() && seen == listed && pods == second && Evolves(old(pods), second)
      ensures listed == Listed(old(pods), second)
      ensures steady <==> Steady(old(pods), second)
      ensures still <==> second == old(pods)
    {
      ghost var first := pods;
      var running := GetPodsWithPhase(pods, Running);
      steady, still, seen := true, true, pods;
      ReflectsSelf(pods);
      Elapse();
      var pending := GetPodsWithPhase(pods, Pending);
      listed := GetFilteredRunningPods(running + pending);
      second := pods;
      hide Listed, Steady, Reflects;
      ListedExactlyWhenSteady(first, second);
      ListedNames(first, second, used);
      seen, steady, still := listed, Steady(first, second), second == first;
      if still {
        StillIsSteady(first);
      }
    }

    // Claims are assigned and API calls answered by the environment; a name that is taken makes the call fail.
    // A creation may take effect although it reports an error.
    method CreateAgent(t: Template, caps: Caps) returns (r: Creation, ghost made: bool)
      requires Valid()
      modifies this`pods, this`used, this`seen, this`still, this`failures, this`errors, this`attempts
      ensures still ==> old(still)
      ensures attempts == old(attempts) + 1
      ensures Valid()
      ensures r == Created ==> made
      ensures failures >= old(failures) && (r == Created <==> failures == old(failures))
      ensures errors >= old(errors) && (r == ApiError <==> errors > old(errors))
      ensures !made ==> seen == old(seen)
      ensures made ==>
        |seen| == |old(seen)| + 1 && seen[..|old(seen)|] == old(seen) && IsAgentPod(seen[|old(seen)|], t, caps, quantity)
    {
      hide Valid, Evolves, IsAgentPod;
      made, attempts := false, attempts + 1;
      Elapse();
      var name: string := *;
      var pod := AgentPod(t, caps, name);
      if pod.None? {
        failures, errors := failures + 1, errors + 1;
        return ApiError, false;
      }
      var allocation: Creation := *;
      if allocation != Created {
        failures, errors := failures + 1, errors + if allocation == ApiError then 1 else 0;
        return allocation, false;
      }
      var reply: Lease.Reply := *;
      if reply == Lease.Rejected || name in used {
        failures, errors := failures + 1, errors + 1;
        return ApiError, false;
      }
      Submit(pod.value);
      if reply == Lease.Done {
        return Created, true;
      }
      failures, errors := failures + 1, errors + 1;
      return ApiError, true;
    }

    // The pod object for these capabilities, unless their extra containers cannot be read.
    method AgentPod(t: Template, caps: Caps, name: string) returns (pod: Option<Pod>)
      ensures pod.Some? ==> pod.value.name == name && IsAgentPod(pod.value, t, caps, quantity)
      ensures pod.None? <==> EXTRA_CONTAINERS in caps && ExtraContainers.Read(caps[EXTRA_CONTAINERS], quantity).None?
    {
      hide Print;
      var annotation := GetSortedStringificationOfCapabilitiesMap(caps);
      var containers := t.containers;
      if EXTRA_CONTAINERS in caps {
        var extra := ExtraContainers.ParseExtraAgentContainerDefinition(caps[EXTRA_CONTAINERS], quantity);
        if extra.None? {
          return None;
        }
        containers := containers + extra.value;
      }
      return Some(Pod(name, t.annotations[CAPABILITIES := annotation], false, Pending, 0, containers, []));
    }

    method Submit(pod: Pod)
      requires Valid() && pod.name !in used
      modifies this`pods, this`used, this`seen
      ensures Valid() && seen == old(seen) + [pod] && pods == old(pods) + [pod]
    {
      hide Reflects;
      if steady {
        CreatedReflects(pods, seen, pod);
      }
      if still {
        CreatedReflects(seen, pods, pod);
      }
      pods, seen, used := pods + [pod], seen + [pod], used + {pod.name};
    }

    // Creates agents until one fails. Those made may be one more than is known.
    method CreateAgents(count: nat, t: Template, caps: Caps) returns (r: Creation, ghost made: nat)
      requires Valid()
      modifies this`pods, this`used, this`seen, this`still, this`failures, this`errors, this`attempts
      ensures still ==> old(still)
      ensures attempts <= old(attempts) + count
      ensures Valid()
      ensures made <= count && (r == Created ==> made == count)
      ensures failures >= old(failures) && (r == Created <==> failures == old(failures))
      ensures errors >= old(errors) && (r == ApiError <==> errors > old(errors))
      ensures |seen| == |old(seen)| + made && seen[..|old(seen)|] == old(seen)
      ensures forall i | |old(seen)| <= i < |seen| :: IsAgentPod(seen[i], t, caps, quantity)
    {
      r, made := Created, 0;
      for i := 0 to count
        invariant Valid() && made == i && (still ==> old(still)) && attempts == old(attempts) + i
        invariant |seen| == |old(seen)| + made && seen[..|old(seen)|] == old(seen)
        invariant forall i | |old(seen)| <= i < |seen| :: IsAgentPod(seen[i], t, caps, quantity)
        invariant r == Created && failures == old(failures) && errors == old(errors)
      {
        hide Valid, IsAgentPod;
        ghost var more;
        r, more := CreateAgent(t, caps);
        made := made + if more then 1 else 0;
        if r != Created {
          return;
        }
      }
    }

    // Any pod or none: which one may be terminated depends on what its containers are doing (see Idle).
    method ChoosePod(matching: map<string, seq<Pod>>) returns (found: Option<(string, Pod)>)
      ensures found.Some? ==> found.value.0 in matching && found.value.1 in matching[found.value.0]
    {
      found := None;
      var pending := matching.Keys;
      while pending != {}
        invariant pending <= matching.Keys
        decreases |pending|
      {
        var key :| key in pending;
        for i := 0 to |matching[key]| {
          var terminateable: bool := *;
          if terminateable {
            return Some((key, matching[key][i]));
          }
        }
        pending := pending - {key};
      }
    }

    // Deletes the pod with that name, if it is still there. A deletion may take effect although it reports an error.
    method Delete(pod: Pod) returns (ok: bool, ghost done: bool)
      requires Valid() && pod in seen
      modifies this`pods, this`seen, this`still, this`failures, this`errors
      ensures still ==> old(still)
      ensures Valid() && (ok ==> done)
      ensures failures >= old(failures) && (ok <==> failures == old(failures))
      ensures errors >= old(errors) && (!ok <==> errors > old(errors))
      ensures !done ==> seen == old(seen)
      ensures done ==> exists j | 0 <= j < |old(seen)| ::
                         old(seen)[j] == pod && seen == old(seen)[j := pod.(deleting := true)]
    {
      Elapse();
      ok, done := false, false;
      var reply: Lease.Reply := *;
      var i := 0;
      while i < |pods| && pods[i].name != pod.name
        invariant i <= |pods|
      {
        i := i + 1;
      }
      if i < |pods| && reply != Lease.Rejected {
        ghost var j :| 0 <= j < |seen| && seen[j] == pod;
        MarkDeleted(i, j);
        ok, done := reply == Lease.Done, true;
      }
      if !ok {
        failures, errors := failures + 1, errors + 1;
      }
    }

    method MarkDeleted(i: nat, ghost j: nat)
      requires Valid() && i < |pods| && j < |seen| && pods[i].name == seen[j].name
      modifies this`pods, this`seen
      ensures Valid() && seen == old(seen)[j := old(seen)[j].(deleting := true)]
      ensures pods == old(pods)[i := old(pods)[i].(deleting := true)]
    {
      hide Reflects;
      if steady {
        DeletedReflects(pods, i, seen, j);
      }
      if still {
        DeletedReflects(seen, j, pods, i);
      }
      pods, seen := pods[i := pods[i].(deleting := true)], seen[j := seen[j].(deleting := true)];
    }

    // The demand strings that lack pods, as often as pods are missing, in any order of the strings.
    method MissingAgents(matching: map<string, seq<Pod>>, jobs: map<string, seq<Request>>) returns (want: seq<string>)
      ensures forall s :: multiset(want)[s] == Max(0, Len(jobs, s) - Len(matching, s))
    {
      want := [];
      var pending := jobs.Keys;
      while pending != {}
        invariant pending <= jobs.Keys
        invariant forall s ::
          multiset(want)[s] == if s in pending then 0 else Max(0, Len(jobs, s) - Len(matching, s))
        decreases |pending|
      {
        var key :| key in pending;
        var requested := |jobs[key]|;
        var actual := if key in matching then |matching[key]| else 0;
        ghost var before := multiset(want);
        if requested > actual {
          for i := 0 to requested - actual
            invariant multiset(want) == before[key := i]
          {
            want := want + [key];
          }
        }
        pending := pending - {key};
      }
    }

    method ScaleTemplate(t: Template, matching: map<string, seq<Pod>>, jobs: map<string, seq<Request>>,
                         ghost podBag: Keys, ghost jobBag: Keys)
      returns (ghost e: Effect, stop: bool)
      requires Valid() && Represents(matching, podBag) && Represents(jobs, jobBag)
      requires forall s, p | s in matching && p in matching[s] :: p in seen
      modifies this`pods, this`used, this`seen, this`still, this`failures, this`errors, this`attempts
      ensures still ==> old(still)
      ensures t.minCount <= t.maxCount ==> attempts <= old(attempts) + Max(0, t.maxCount - |podBag|)
      ensures Valid()
      ensures Allowed(BoundsOf(t), podBag, jobBag, e)
      ensures stop ==> !e.complete
      ensures failures >= old(failures) && (e.complete <==> failures == old(failures))
      ensures errors >= old(errors) && (stop <==> errors > old(errors))
      ensures e.victim.Some? ==> e.created == [] && Shrunk(old(seen), seen, matching, e.victim.value)
      ensures e.victim.None? ==> Grown(old(seen), seen, t, e.created, |podBag| < t.minCount, quantity)
      ensures e.victim.None? && !(|podBag| < t.minCount) ==> multiset(e.created) <= jobBag - podBag
    {
      hide Valid, Grown, IsAgentPod, Shrunk, Allowed, Represents;
      RepresentsAll(matching, podBag);
      RepresentsAll(jobs, jobBag);
      var podCount := GetCount(matching);
      var jobCount := GetCount(jobs);
      if podCount > Min(t.maxCount, Max(jobCount, t.minCount)) {
        var choice := ChoosePod(matching);
        e, stop := ShrinkTemplate(t, matching, choice);
        NothingGrown(seen, t, |podBag| < t.minCount, quantity);
        ShrinkIsAllowed(t, matching, podBag, jobBag, e);
      } else if podCount < t.minCount {
        e, stop := FillTemplate(t, t.minCount - podCount);
        FillIsAllowed(t, podBag, jobBag, e);
      } else {
        e, stop := ServeJobs(t, t.maxCount - podCount, matching, jobs, podBag, jobBag);
        ServeIsAllowed(t, podBag, jobBag, e);
      }
    }

    // Deletes the pod that was chosen, if any.
    method ShrinkTemplate(t: Template, matching: map<string, seq<Pod>>, choice: Option<(string, Pod)>)
      returns (ghost e: Effect, stop: bool)
      requires Valid()
      requires forall s, p | s in matching && p in matching[s] :: p in seen
      requires choice.Some? ==> choice.value.0 in matching && choice.value.1 in matching[choice.value.0]
      modifies this`pods, this`used, this`seen, this`still, this`failures, this`errors
      ensures still ==> old(still)
      ensures Valid() && e.created == [] && (stop <==> !e.complete)
      ensures failures >= old(failures) && (e.complete <==> failures == old(failures))
      ensures errors >= old(errors) && (stop <==> errors > old(errors))
      ensures e.complete && choice.Some? ==> e.victim.Some?
      ensures e.victim.Some? ==>
                && choice.Some? && e.victim.value == choice.value.0 && Len(matching, e.victim.value) > 0
                && Shrunk(old(seen), seen, matching, e.victim.value)
      ensures e.victim.None? ==> seen == old(seen)
    {
      hide Valid;
      e, stop := Nothing, false;
      if choice.Some? {
        var ok;
        ghost var done;
        ok, done := Delete(choice.value.1);
        e, stop := Effect([], if done then Some(choice.value.0) else None, ok), !ok;
      }
    }

    method FillTemplate(t: Template, missing: nat) returns (ghost e: Effect, stop: bool)
      requires Valid()
      modifies this`pods, this`used, this`seen, this`still, this`failures, this`errors, this`attempts
      ensures still ==> old(still)
      ensures attempts <= old(attempts) + missing
      ensures Valid() && e.victim.None? && (stop ==> !e.complete)
      ensures failures >= old(failures) && (e.complete <==> failures == old(failures))
      ensures errors >= old(errors) && (stop <==> errors > old(errors))
      ensures |e.created| <= missing && (e.complete ==> |e.created| == missing)
      ensures forall k | k in e.created :: k == Print(t.caps)
      ensures Grown(old(seen), seen, t, e.created, true, quantity)
    {
      hide Valid;
      var r;
      ghost var made;
      r, made := CreateAgents(missing, t, t.caps);
      e, stop := Effect(seq(made, _ => Print(t.caps)), None, r == Created), r == ApiError;
    }

    method CreateForDemand(t: Template, demand: string) returns (r: Creation, ghost made: bool)
      requires Valid()
      modifies this`pods, this`used, this`seen, this`still, this`failures, this`errors, this`attempts
      ensures still ==> old(still)
      ensures attempts <= old(attempts) + 1
      ensures Valid()
      ensures r == Created ==> made
      ensures failures >= old(failures) && (r == Created <==> failures == old(failures))
      ensures errors >= old(errors) && (r == ApiError <==> errors > old(errors))
      ensures !made ==> seen == old(seen)
      ensures made ==> |seen| == |old(seen)| + 1 && seen[..|old(seen)|] == old(seen)
      ensures made ==> IsAgentPod(seen[|seen| - 1], t, Parse(demand), quantity)
    {
      hide Valid;
      var caps := GetCapabilitiesMapFromString(demand);
      ghost var count;
      r, count := CreateAgents(1, t, caps);
      made := count == 1;
      assert count == 0 ==> seen == old(seen);
    }

    method ServeJobs(t: Template, room: nat, matching: map<string, seq<Pod>>, jobs: map<string, seq<Request>>,
                     ghost podBag: Keys, ghost jobBag: Keys)
      returns (ghost e: Effect, stop: bool)
      requires Valid() && Represents(matching, podBag) && Represents(jobs, jobBag)
      modifies this`pods, this`used, this`seen, this`still, this`failures, this`errors, this`attempts
      ensures still ==> old(still)
      ensures attempts <= old(attempts) + room
      ensures Valid()
      ensures e.victim.None? && multiset(e.created) <= jobBag - podBag && |e.created| <= room
      ensures e.complete ==> |e.created| == Min(room, |jobBag - podBag|)
      ensures stop ==> !e.complete
      ensures failures >= old(failures) && (e.complete <==> failures == old(failures))
      ensures errors >= old(errors) && (stop <==> errors > old(errors))
      ensures Grown(old(seen), seen, t, e.created, false, quantity)
    {
      var want := MissingAgents(matching, jobs);
      MissingIsDifference(matching, jobs, podBag, jobBag, want);
      e, stop := CreateWanted(t, room, want);
    }

    method CreateWanted(t: Template, room: nat, want: seq<string>) returns (ghost e: Effect, stop: bool)
      requires Valid()
      modifies this`pods, this`used, this`seen, this`still, this`failures, this`errors, this`attempts
      ensures still ==> old(still)
      ensures attempts <= old(attempts) + room
      ensures Valid()
      ensures e.victim.None? && multiset(e.created) <= multiset(want) && |e.created| <= room
      ensures e.complete ==> |e.created| == Min(room, |want|)
      ensures stop ==> !e.complete
      ensures failures >= old(failures) && (e.complete <==> failures == old(failures))
      ensures errors >= old(errors) && (stop <==> errors > old(errors))
      ensures Grown(old(seen), seen, t, e.created, false, quantity)
    {
      hide Valid, IsAgentPod, Serving;
      e, stop := Nothing, false;
      var left := room;
      ServingStarts(seen, t, want, room, quantity);
      for i := 0 to |want|
        invariant Valid() && (still ==> old(still)) && !stop && left == Max(0, room - i)
        invariant attempts <= old(attempts) + Min(i, room)
        invariant Serving(old(seen), seen, t, want, i, room, e, quantity)
        invariant failures >= old(failures) && (e.complete <==> failures == old(failures)) && errors == old(errors)
      {
        if left == 0 {
          ServingEnds(old(seen), seen, t, want, i, room, e, quantity);
          return;
        }
        ghost var before := seen;
        var r;
        ghost var made;
        r, made := CreateForDemand(t, want[i]);
        ServingMore(old(seen), before, seen, t, want, i, room, e, made, r == Created, quantity);
        e := Effect(if made then e.created + [want[i]] else e.created, None, e.complete && r == Created);
        if r == ApiError {
          stop := true;
          ServingEnds(old(seen), seen, t, want, i + 1, room, e, quantity);
          return;
        }
        left := left - 1;
      }
      ServingEnds(old(seen), seen, t, want, |want|, room, e, quantity);
    }
  }

  // The first i of the wanted demands were dealt with.
  ghost predicate Serving(first: seq<Pod>, now: seq<Pod>, t: Template, want: seq<string>, i: nat, room: nat, e: Effect,
                          quantity: string -> bool) {
    && i <= |want| && e.victim.None?
    && |e.created| <= Min(room, i) && (e.complete ==> |e.created| == Min(room, i))
    && Served(e.created, want, i) && Grown(first, now, t, e.created, false, quantity)
  }

  lemma {:induction false} ServingStarts(seen: seq<Pod>, t: Template, want: seq<string>, room: nat, quantity: string -> bool)
    ensures Serving(seen, seen, t, want, 0, room, Nothing, quantity)
  {
    CreationStarts(seen, t, want, quantity);
  }

  lemma {:induction false} ServingMore(first: seq<Pod>, before: seq<Pod>, after: seq<Pod>, t: Template, want: seq<string>,
                                       i: nat, room: nat, e: Effect, made: bool, known: bool, quantity: string -> bool)
    requires Serving(first, before, t, want, i, room, e, quantity) && i < |want| && i < room
    requires known ==> made
    requires if made then
               |after| == |before| + 1 && after[..|before|] == before && IsAgentPod(after[|before|], t, Parse(want[i]), quantity)
             else after == before
    ensures Serving(first, after, t, want, i + 1, room,
                    Effect(if made then e.created + [want[i]] else e.created, None, e.complete && known), quantity)
  {
    hide Grown, Served, IsAgentPod;
    ServedStep(e.created, want, i);
    if made {
      GrownMore(first, before, after, t, e.created, want[i], quantity);
    }
  }

  lemma {:induction false} ServingEnds(first: seq<Pod>, now: seq<Pod>, t: Template, want: seq<string>, i: nat, room: nat,
                                       e: Effect, quantity: string -> bool)
    requires Serving(first, now, t, want, i, room, e, quantity)
    ensures e.victim.None? && multiset(e.created) <= multiset(want) && |e.created| <= room
    ensures e.complete && (i == |want| || i >= room) ==> |e.created| == Min(room, |want|)
    ensures Grown(first, now, t, e.created, false, quantity)
  {
    hide Grown, Served;
  }

  lemma {:induction false} RepresentsAll<T>(m: map<string, seq<T>>, bag: Keys)
    requires Represents(m, bag)
    ensures Total(m) == |bag|
  {
  }

  lemma {:induction false} ShrinkIsAllowed(t: Template, matching: map<string, seq<Pod>>, pods: Keys, jobs: Keys, e: Effect)
    requires |pods| > Target(BoundsOf(t), |jobs|) && Represents(matching, pods) && e.created == []
    requires e.victim.Some? ==> Len(matching, e.victim.value) > 0
    ensures Allowed(BoundsOf(t), pods, jobs, e)
  {
    assert e.victim.Some? ==> pods[e.victim.value] == Len(matching, e.victim.value);
  }

  lemma {:induction false} FillIsAllowed(t: Template, pods: Keys, jobs: Keys, e: Effect)
    requires |pods| <= Target(BoundsOf(t), |jobs|) && |pods| < t.minCount && e.victim.None?
    requires |e.created| <= t.minCount - |pods| && (e.complete ==> |e.created| == t.minCount - |pods|)
    requires forall k | k in e.created :: k == Print(t.caps)
    ensures Allowed(BoundsOf(t), pods, jobs, e)
  {
    hide Print;
  }

  lemma {:induction false} ServeIsAllowed(t: Template, pods: Keys, jobs: Keys, e: Effect)
    requires t.minCount <= |pods| <= Target(BoundsOf(t), |jobs|) && e.victim.None?
    requires multiset(e.created) <= jobs - pods && |e.created| <= t.maxCount - |pods|
    requires e.complete ==> |e.created| == Min(t.maxCount - |pods|, |jobs - pods|)
    ensures Allowed(BoundsOf(t), pods, jobs, e)
  {
    hide Print;
  }

  lemma {:induction false} NothingEvolves(pods: seq<Pod>)
    requires Named(pods)
    ensures Evolves(pods, pods)
  {
    ReflectsSelf(pods);
    hide Counted, Reflects;
    forall i | 0 <= i < |pods| ensures HasName(pods, pods[i].name) {
    }
    forall i, j | 0 <= i < |pods| && 0 <= j < |pods| && pods[i].name == pods[j].name ensures i == j {
    }
  }

  lemma {:induction false} EvolvedReflects(before: seq<Pod>, after: seq<Pod>)
    requires Evolves(before, after)
    ensures Named(after) && Reflects(after, before)
  {
  }

  lemma {:induction false} NamesStay(before: seq<Pod>, after: seq<Pod>, names: set<string>)
    requires Evolves(before, after) && NamesIn(before, names)
    ensures NamesIn(after, names)
  {
  }

  lemma {:induction false} ListedNames(first: seq<Pod>, second: seq<Pod>, names: set<string>)
    requires NamesIn(first, names) && NamesIn(second, names)
    ensures NamesIn(Listed(first, second), names)
  {
    ListedMembers(first, second);
    var listed := Listed(first, second);
    forall i | 0 <= i < |listed| ensures listed[i].name in names {
      assert listed[i] in listed;
    }
  }

  lemma {:induction false} NothingStarts(pods: seq<Pod>)
    requires Named(pods)
    ensures Steady(pods, pods)
  {
    hide Counted;
    assert forall i, j | 0 <= i < |pods| && 0 <= j < |pods| && pods[i].name == pods[j].name :: i == j;
  }

  lemma {:induction false} StillIsSteady(pods: seq<Pod>)
    requires Named(pods)
    ensures Steady(pods, pods) && Reflects(Listed(pods, pods), pods)
  {
    hide *;
    NothingStarts(pods);
    NothingEvolves(pods);
    ListedExactlyWhenSteady(pods, pods);
  }
}
