/**
 Choosing a pod that may be terminated. An agent that does no work is not terminated at once: the first
 detection is stamped on the pod, in whole seconds, and the stamp is taken off when the agent works again.
 */
module Idle {
  import opened Clock
  import opened Outcomes
  import opened Spec
  import opened Lease

  // The annotation with the first detection, as time.Parse reads it back: whole seconds, or not a time at all.
  datatype Stamp = At(second: int) | Garbage

  // What the pod list says about an agent pod.
  datatype Candidate = Candidate(name: string, phase: Phase, scheduled: bool, stamp: Option<Stamp>)

  // How counting the worker processes in the agent container ends.
  datatype Exec = Output(text: string) | Failure(message: string)

  datatype Reason = Unscheduled | Stopped | IdleTooLong

  // What happens to a pod's stamp: the pod appears, with or without an annotation that is no time, or it is
  // inspected - what the command said and when, when that was judged, and how an update of the stamp would end.
  datatype Event =
    | Appears(pod: string, garbled: bool)
    | Inspected(pod: string, exec: Exec, observed: Time, judged: Time, reply: Reply)

  function Format(t: Time): Stamp {
    At(t / SECOND)
  }

  predicate Contains(text: string, part: string) {
    exists i | 0 <= i <= |text| :: part <= text[i..]
  }

  predicate IsGone(exec: Exec) {
    exec.Failure? &&
    (Contains(exec.message, "container not found") || Contains(exec.message, "cannot exec in a stopped container"))
  }

  predicate IsUnscheduled(p: Candidate) {
    p.phase == Pending && !p.scheduled
  }

  /** Whether the pod may be terminated, and why: by its phase, by the command's result, by its stamp. */
  function Decision(p: Candidate, exec: Exec, now: Time, minIdle: Time): Option<Reason> {
    if IsUnscheduled(p) then Some(Unscheduled)
    else if IsGone(exec) then Some(Stopped)
    else if exec == Output("0\n") && p.stamp.Some? && p.stamp.value.At?
            && now - p.stamp.value.second * SECOND >= minIdle then Some(IdleTooLong)
    else None
  }

  /**
   Exactly when a pod counts as stopped: it is scheduled, and the command failed with a message that speaks of a
   container that is not found or stopped.
   */
  lemma {:induction false} StoppedExactlyWhen(p: Candidate, exec: Exec, now: Time, minIdle: Time)
    ensures Decision(p, exec, now, minIdle) == Some(Stopped) <==>
            && !(p.phase == Pending && !p.scheduled) && exec.Failure?
            && (Mentions(exec.message, "container not found") || Mentions(exec.message, "cannot exec in a stopped container"))
    ensures Decision(p, exec, now, minIdle) == Some(Unscheduled) <==> p.phase == Pending && !p.scheduled
  {
    if exec.Failure? {
      ContainsExactlyWhenMentions(exec.message, "container not found");
      ContainsExactlyWhenMentions(exec.message, "cannot exec in a stopped container");
    }
    hide Contains, Mentions;
  }

  ghost predicate Mentions(text: string, part: string) {
    exists a: string, b: string :: text == a + part + b
  }

  lemma {:induction false} ContainsExactlyWhenMentions(text: string, part: string)
    ensures Contains(text, part) <==> Mentions(text, part)
  {
    if i :| 0 <= i <= |text| && part <= text[i..] {
      assert text == text[..i] + part + text[i..][|part|..];
    }
    if a: string, b: string :| text == a + part + b {
      assert text[|a|..] == part + b;
    }
  }

  /** The first idle detection is stamped, later ones leave the stamp, a single worker takes it off. */
  function StampAfter(stamp: Option<Stamp>, exec: Exec, reply: Reply, now: Time): Option<Stamp> {
    if reply == Rejected then stamp
    else if exec == Output("0\n") && stamp.None? then Some(Format(now))
    else if exec == Output("1\n") then None
    else stamp
  }

  /** The stamp of a pod after a whole history. */
  ghost function StampOf(events: seq<Event>, pod: string): Option<Stamp> {
    if events == [] then None
    else
      var last, before := events[|events| - 1], StampOf(events[..|events| - 1], pod);
      if last.pod != pod then before
      else
        match last
        case Appears(_, garbled) => if garbled then Some(Garbage) else None
        case Inspected(_, exec, _, judged, reply) => StampAfter(before, exec, reply, judged)
  }

  // The clock never goes back, and inspections do not overlap.
  ghost predicate Ordered(events: seq<Event>) {
    && (forall i | 0 <= i < |events| && events[i].Inspected? :: events[i].observed <= events[i].judged)
    && (forall i, j | 0 <= i < j < |events| && events[i].Inspected? && events[j].Inspected? ::
          events[i].judged <= events[j].observed)
  }

  /** One worker was seen, and that was recorded; or there is a new pod of this name. */
  predicate Clears(e: Event, pod: string) {
    e.pod == pod && (e.Appears? || (e.exec == Output("1\n") && e.reply != Rejected))
  }

  predicate SawIdle(e: Event, pod: string) {
    e.Inspected? && e.pod == pod && e.exec == Output("0\n") && e.reply != Rejected
  }

  ghost predicate Undisturbed(events: seq<Event>, i: nat, pod: string) {
    forall j | i < j < |events| :: !Clears(events[j], pod)
  }

  // The annotation the pod came with is no time, and is still there.
  ghost predicate IsGarbled(events: seq<Event>, pod: string) {
    exists i | 0 <= i < |events| :: events[i] == Appears(pod, true) && Undisturbed(events, i, pod)
  }

  /** The i-th event saw the pod idle, which was recorded, and no worker was recorded since. */
  ghost predicate IdleFrom(events: seq<Event>, i: nat, pod: string)
    requires i < |events|
  {
    SawIdle(events[i], pod) && Undisturbed(events, i, pod)
  }

  lemma {:induction false} UndisturbedSplits(events: seq<Event>, i: nat, pod: string)
    requires i < |events| - 1
    ensures Undisturbed(events, i, pod) <==>
            Undisturbed(events[..|events| - 1], i, pod) && !Clears(events[|events| - 1], pod)
  {
    var before := events[..|events| - 1];
    assert forall j | 0 <= j < |before| :: before[j] == events[j];
  }

  lemma {:induction false} GarbledSplits(events: seq<Event>, pod: string)
    requires events != []
    ensures var last := events[|events| - 1];
            IsGarbled(events, pod) <==>
            last == Appears(pod, true) || (IsGarbled(events[..|events| - 1], pod) && !Clears(last, pod))
  {
    var n := |events| - 1;
    var before := events[..n];
    if IsGarbled(events, pod) && events[n] != Appears(pod, true) {
      var i :| 0 <= i < |events| && events[i] == Appears(pod, true) && Undisturbed(events, i, pod);
      UndisturbedSplits(events, i, pod);
      assert before[i] == events[i];
    }
    if IsGarbled(before, pod) && !Clears(events[n], pod) {
      var i :| 0 <= i < n && before[i] == Appears(pod, true) && Undisturbed(before, i, pod);
      UndisturbedSplits(events, i, pod);
    }
    if events[n] == Appears(pod, true) {
      assert Undisturbed(events, n, pod);
    }
  }

  lemma {:induction false} GarbageExactlyWhenGarbled(events: seq<Event>, pod: string)
    ensures StampOf(events, pod) == Some(Garbage) <==> IsGarbled(events, pod)
  {
    hide IsGarbled;
    if events == [] {
      NothingGarbled(pod);
    } else {
      GarbledSplits(events, pod);
      GarbageExactlyWhenGarbled(events[..|events| - 1], pod);
    }
  }

  lemma {:induction false} NothingGarbled(pod: string)
    ensures !IsGarbled([], pod)
  {
  }

  // A stamp is the second in which an idle pod was seen first, and no worker was recorded since.
  lemma {:induction false} StampWasIdle(events: seq<Event>, pod: string) returns (i: nat)
    requires StampOf(events, pod).Some? && StampOf(events, pod).value.At?
    ensures i < |events| && IdleFrom(events, i, pod) && Some(Format(events[i].judged)) == StampOf(events, pod)
  {
    var n := |events| - 1;
    var before := events[..n];
    if StampOf(before, pod) == StampOf(events, pod) && !Clears(events[n], pod) {
      i := StampWasIdle(before, pod);
      UndisturbedSplits(events, i, pod);
    } else {
      i := n;
    }
  }

  // While a recorded idle detection is undisturbed, the stamp is there and no later than it.
  lemma {:induction false} IdleIsStamped(events: seq<Event>, i: nat, pod: string)
    requires Ordered(events) && i < |events| && IdleFrom(events, i, pod) && !IsGarbled(events, pod)
    ensures StampOf(events, pod).Some? && StampOf(events, pod).value.At?
    ensures StampOf(events, pod).value.second <= events[i].judged / SECOND
  {
    hide IsGarbled;
    var n := |events| - 1;
    var before := events[..n];
    assert forall j | 0 <= j < n :: before[j] == events[j];
    GarbledSplits(events, pod);
    GarbageExactlyWhenGarbled(before, pod);
    if i < n {
      UndisturbedSplits(events, i, pod);
      IdleIsStamped(before, i, pod);
    } else if StampOf(before, pod).Some? {
      var first := StampWasIdle(before, pod);
      assert events[first].judged <= events[n].judged;
    }
  }

  /**
   Exactly when a pod is terminated for idleness: the command says so now, and some recorded detection,
   undisturbed since, is the minimum idle period old, counted from the second it was judged in. So the pod was
   seen idle more than that period less one second before.
   */
  lemma {:induction false} IdleTooLongExactlyWhen(events: seq<Event>, p: Candidate, exec: Exec, now: Time, minIdle: Time)
    requires Ordered(events) && p.stamp == StampOf(events, p.name)
    ensures Decision(p, exec, now, minIdle) == Some(IdleTooLong) <==>
            && !IsUnscheduled(p) && exec == Output("0\n") && !IsGarbled(events, p.name)
            && exists i | 0 <= i < |events| ::
                 IdleFrom(events, i, p.name) && now - events[i].judged / SECOND * SECOND >= minIdle
    ensures Decision(p, exec, now, minIdle) == Some(IdleTooLong) ==> IdleLongEnough(events, p.name, now, minIdle)
  {
    GarbageExactlyWhenGarbled(events, p.name);
    hide IsGarbled, StampOf;
    if p.stamp.Some? && p.stamp.value.At? {
      var i := StampWasIdle(events, p.name);
      if i' :| 0 <= i' < |events| && IdleFrom(events, i', p.name) && now - events[i'].judged / SECOND * SECOND >= minIdle {
        IdleIsStamped(events, i', p.name);
      }
      assert events[i].observed <= events[i].judged < (p.stamp.value.second + 1) * SECOND;
    } else if !IsGarbled(events, p.name) {
      if i :| 0 <= i < |events| && IdleFrom(events, i, p.name) {
        IdleIsStamped(events, i, p.name);
        assert false;
      }
    }
  }

  ghost predicate IdleLongEnough(events: seq<Event>, pod: string, now: Time, minIdle: Time) {
    exists i | 0 <= i < |events| :: IdleFrom(events, i, pod) && now - events[i].observed > minIdle - SECOND
  }

  lemma {:induction false} StillIdle(events: seq<Event>, e: Event, pod: string, now: Time, minIdle: Time)
    requires IdleLongEnough(events, pod, now, minIdle) && !Clears(e, pod)
    ensures IdleLongEnough(events + [e], pod, now, minIdle)
  {
    var i :| 0 <= i < |events| && IdleFrom(events, i, pod) && now - events[i].observed > minIdle - SECOND;
    var after := events + [e];
    assert after[..|after| - 1] == events && after[i] == events[i];
    UndisturbedSplits(after, i, pod);
  }

  lemma {:induction false} StampsAppend(events: seq<Event>, e: Event, pod: string)
    ensures e.pod != pod ==> StampOf(events + [e], pod) == StampOf(events, pod)
    ensures e == Appears(pod, false) ==> StampOf(events + [e], pod) == None
    ensures e == Appears(pod, true) ==> StampOf(events + [e], pod) == Some(Garbage)
    ensures e.Inspected? && e.pod == pod ==>
              StampOf(events + [e], pod) == StampAfter(StampOf(events, pod), e.exec, e.reply, e.judged)
  {
    assert (events + [e])[..|events|] == events;
  }

  // The stamps in the cluster are those the history tells of.
  ghost predicate Tells(events: seq<Event>, store: map<string, Option<Stamp>>) {
    forall p | p in store :: store[p] == StampOf(events, p)
  }

  lemma {:induction false} TellsMore(events: seq<Event>, e: Event, before: map<string, Option<Stamp>>,
                                     after: map<string, Option<Stamp>>)
    requires Tells(events, before)
    requires forall p | p in after && p != e.pod :: p in before && after[p] == before[p]
    requires e.pod in after ==> after[e.pod] == StampOf(events + [e], e.pod)
    ensures Tells(events + [e], after)
  {
    forall p | p in after ensures after[p] == StampOf(events + [e], p) {
      StampsAppend(events, e, p);
    }
  }

  // All of the history is past.
  ghost predicate Past(events: seq<Event>, now: Time) {
    Ordered(events) && forall i | 0 <= i < |events| && events[i].Inspected? :: events[i].judged <= now
  }

  lemma {:induction false} PastMore(events: seq<Event>, e: Event, now: Time, later: Time)
    requires Past(events, now) && now <= later && (e.Inspected? ==> now <= e.observed <= e.judged <= later)
    ensures Past(events + [e], later)
  {
  }

  // An observation of the pod since `since` ended with the command's result that decides for the reason.
  ghost predicate ObservedSince(events: seq<Event>, since: nat, pod: string, reason: Reason) {
    exists i | since <= i < |events| ::
      events[i].Inspected? && events[i].pod == pod
      && (reason == Stopped ==> IsGone(events[i].exec)) && (reason == IdleTooLong ==> events[i].exec == Output("0\n"))
  }

  /** What is known when a pod is chosen for a reason, by an inspection made since `since` unless it is unscheduled. */
  ghost predicate Justified(p: Candidate, reason: Reason, events: seq<Event>, since: nat, now: Time, minIdle: Time) {
    match reason
    case Unscheduled => IsUnscheduled(p)
    case Stopped => ObservedSince(events, since, p.name, Stopped)
    case IdleTooLong => ObservedSince(events, since, p.name, IdleTooLong) && IdleLongEnough(events, p.name, now, minIdle)
  }

  /** The last inspection, made since `since`, is of the pod and decides: by what the command printed or failed with. */
  ghost predicate DecidedBy(p: Candidate, reason: Reason, history: seq<Event>, since: nat) {
    if p.phase == Pending && !p.scheduled then reason == Unscheduled
    else
      && |history| > since
      && var e := history[|history| - 1];
      && e.Inspected? && e.pod == p.name
      && match reason
         case Unscheduled => false
         case Stopped =>
           e.exec.Failure? &&
           (Mentions(e.exec.message, "container not found") || Mentions(e.exec.message, "cannot exec in a stopped container"))
         case IdleTooLong => e.exec == Output("0\n")
  }

  lemma {:induction false} DecidedByLast(p: Candidate, reason: Reason, history: seq<Event>, e: Event, minIdle: Time)
    requires e.Inspected? && e.pod == p.name && Decision(p, e.exec, e.judged, minIdle) == Some(reason)
    ensures DecidedBy(p, reason, history + [e], |history|)
  {
    StoppedExactlyWhen(p, e.exec, e.judged, minIdle);
    hide Mentions, IsGone;
  }

  /** What is known when an inspected pod was passed over, judged by its stamp in the list. */
  ghost predicate PassedOver(p: Candidate, o: Event, minIdle: Time) {
    && !IsUnscheduled(p)
    && o.Inspected? && o.pod == p.name && !IsGone(o.exec)
    && (o.exec == Output("0\n") && p.stamp.Some? && p.stamp.value.At? ==>
          o.judged - p.stamp.value.second * SECOND < minIdle)
  }

  // The first n pods of a list were passed over, by observations made since `since`.
  ghost predicate AllPassedOver(ps: seq<Candidate>, n: nat, history: seq<Event>, since: nat, minIdle: Time)
    requires n <= |ps|
  {
    forall k | 0 <= k < n :: SomePassedOver(ps[k], history, since, minIdle)
  }

  ghost predicate SomePassedOver(p: Candidate, history: seq<Event>, since: nat, minIdle: Time) {
    exists i | since <= i < |history| :: PassedOver(p, history[i], minIdle)
  }

  lemma {:induction false} PassedOverStays(ps: seq<Candidate>, n: nat, before: seq<Event>, after: seq<Event>,
                                           since: nat, minIdle: Time)
    requires n <= |ps| && AllPassedOver(ps, n, before, since, minIdle) && before <= after
    ensures AllPassedOver(ps, n, after, since, minIdle)
  {
    forall k | 0 <= k < n ensures SomePassedOver(ps[k], after, since, minIdle) {
      var i :| since <= i < |before| && PassedOver(ps[k], before[i], minIdle);
      assert after[i] == before[i];
    }
  }

  // The pods of a list, from the i-th on, are as the cluster has them.
  ghost predicate Fresh(store: map<string, Option<Stamp>>, ps: seq<Candidate>, i: nat) {
    forall k | i <= k < |ps| :: ps[k].name in store && store[ps[k].name] == ps[k].stamp
  }

  // No pod is listed twice.
  ghost predicate OnceListed(matching: map<string, seq<Candidate>>) {
    forall a, b, i, j | a in matching && b in matching && 0 <= i < |matching[a]| && 0 <= j < |matching[b]| ::
      matching[a][i].name == matching[b][j].name ==> a == b && i == j
  }

  ghost predicate AllFresh(store: map<string, Option<Stamp>>, matching: map<string, seq<Candidate>>, keys: set<string>) {
    forall k | k in keys && k in matching :: Fresh(store, matching[k], 0)
  }

  lemma {:induction false} OthersStayFresh(before: map<string, Option<Stamp>>, after: map<string, Option<Stamp>>,
                                           matching: map<string, seq<Candidate>>, keys: set<string>, key: string, i: nat)
    requires OnceListed(matching) && keys <= matching.Keys && key in matching && key !in keys && i < |matching[key]|
    requires AllFresh(before, matching, keys) && Fresh(before, matching[key], i)
    requires forall p | p in before && p != matching[key][i].name :: p in after && after[p] == before[p]
    ensures AllFresh(after, matching, keys) && Fresh(after, matching[key], i + 1)
  {
    forall k | k in keys ensures Fresh(after, matching[k], 0) {
      assert Fresh(before, matching[k], 0);
    }
  }

  class IdleWatch {
    var store: map<string, Option<Stamp>>
    var now: Time
    ghost var history: seq<Event>

    ghost predicate Valid()
      reads this
    {
      Tells(history, store) && Past(history, now)
    }

    constructor (now: Time)
      ensures Valid() && store == map[] && history == []
    {
      this.now, store, history := now, map[], [];
    }

    // The environment creates pods without a first detection, and removes pods.
    method Add(pod: string, garbled: bool)
      requires Valid()
      modifies this`store, this`history
      ensures Valid() && store == old(store)[pod := if garbled then Some(Garbage) else None]
      ensures history == old(history) + [Appears(pod, garbled)]
    {
      ghost var before, e := store, Appears(pod, garbled);
      store := store[pod := if garbled then Some(Garbage) else None];
      StampsAppend(history, e, pod);
      TellsMore(history, e, before, store);
      PastMore(history, e, now, now);
      history := history + [e];
    }

    method Remove(pod: string)
      requires Valid()
      modifies this`store
      ensures Valid() && store == old(store) - {pod}
    {
      store := store - {pod};
    }

    method Wait()
      modifies this`now
      ensures now >= old(now)
    {
      var elapsed: int := *;
      if elapsed > 0 {
        now := now + elapsed;
      }
    }

    // Inspects a pod whose stamp in the list is the one in the cluster: what the command says and how the
    // update of the stamp ends is up to the cluster.
    method Inspect(p: Candidate, minIdle: Time, exec: Exec, reply: Reply) returns (found: Option<Reason>)
      requires Valid() && p.name in store && store[p.name] == p.stamp
      modifies this
      ensures Valid() && now >= old(now) && old(history) <= history
      ensures found == Decision(p, exec, now, minIdle)
      ensures store == old(store)[p.name := if IsUnscheduled(p) then p.stamp else StampAfter(p.stamp, exec, reply, now)]
      ensures found.Some? ==> Justified(p, found.value, history, |old(history)|, now, minIdle)
      ensures found.Some? ==> DecidedBy(p, found.value, history, |old(history)|)
      ensures exec != Output("0\n") && exec != Output("1\n") ==> store == old(store)
      ensures found.None? ==> SomePassedOver(p, history, |old(history)|, minIdle)
    {
      hide Tells, StampOf, Past, Justified, SomePassedOver, Contains, DecidedBy;
      if IsUnscheduled(p) {
        UnscheduledIsJustified(p, history, |history|, now, minIdle);
        return Some(Unscheduled);
      }
      ghost var start, before := now, store;
      assert store == store[p.name := p.stamp];
      Wait();
      ghost var observed := now;
      Wait();
      found := None;
      if exec == Output("0\n") {
        if p.stamp.None? {
          if reply != Rejected {
            store := store[p.name := Some(Format(now))];
          }
        } else if p.stamp.value.At? && now - p.stamp.value.second * SECOND >= minIdle {
          found := Some(IdleTooLong);
        }
      } else if exec == Output("1\n") {
        if p.stamp.Some? && reply != Rejected {
          store := store[p.name := None];
        }
      } else if IsGone(exec) {
        found := Some(Stopped);
      }
      ghost var e := Inspected(p.name, exec, observed, now, reply);
      Remembered(history, before, p, minIdle, e, start);
      if found.Some? {
        DecidedByLast(p, found.value, history, e, minIdle);
      }
      TellsMore(history, e, before, store);
      PastMore(history, e, start, now);
      history := history + [e];
    }

    /**
     The first pod found, in any order of the lists, that may be terminated. A pod is only ever chosen for a
     reason, and if none is chosen then all of them were inspected and passed over.
     */
    method GetTerminateablePod(matching: map<string, seq<Candidate>>, minIdle: Time)
      returns (found: Option<(Candidate, Reason)>)
      requires Valid() && OnceListed(matching) && AllFresh(store, matching, matching.Keys)
      modifies this
      ensures Valid() && now >= old(now) && old(history) <= history
      ensures found.Some? ==>
                && Justified(found.value.0, found.value.1, history, |old(history)|, now, minIdle)
                && DecidedBy(found.value.0, found.value.1, history, |old(history)|)
                && exists k | k in matching :: found.value.0 in matching[k]
      ensures found.None? ==> forall k | k in matching ::
                                AllPassedOver(matching[k], |matching[k]|, history, |old(history)|, minIdle)
    {
      hide Justified, DecidedBy, SomePassedOver, Tells, Past, OnceListed, AllFresh, Fresh, AllPassedOver;
      var pending := matching.Keys;
      while pending != {}
        invariant pending <= matching.Keys
        invariant Valid() && now >= old(now) && old(history) <= history
        invariant AllFresh(store, matching, pending)
        invariant forall k | k in matching.Keys - pending ::
          AllPassedOver(matching[k], |matching[k]|, history, |old(history)|, minIdle)
        decreases |pending|
      {
        var key :| key in pending;
        ghost var seen := history;
        FirstIsFresh(store, matching, pending, key);
        pending := pending - {key};
        found := InspectAll(matching, key, pending, minIdle);
        if found.Some? {
          JustifiedSince(found.value.0, found.value.1, history, |seen|, |old(history)|, now, minIdle);
          DecidedSince(found.value.0, found.value.1, history, |seen|, |old(history)|);
          return;
        }
        forall k | k in matching.Keys - pending - {key}
          ensures AllPassedOver(matching[k], |matching[k]|, history, |old(history)|, minIdle)
        {
          PassedOverStays(matching[k], |matching[k]|, seen, history, |old(history)|, minIdle);
        }
        PassedOverSince(matching[key], |matching[key]|, history, |seen|, |old(history)|, minIdle);
      }
      found := None;
    }

    // One list of the map, while the lists of the other keys still wait.
    method InspectAll(matching: map<string, seq<Candidate>>, key: string, ghost waiting: set<string>, minIdle: Time)
      returns (found: Option<(Candidate, Reason)>)
      requires Valid() && OnceListed(matching) && key in matching && key !in waiting && waiting <= matching.Keys
      requires AllFresh(store, matching, waiting) && Fresh(store, matching[key], 0)
      modifies this
      ensures Valid() && now >= old(now) && old(history) <= history
      ensures AllFresh(store, matching, waiting)
      ensures found.Some? ==>
                && Justified(found.value.0, found.value.1, history, |old(history)|, now, minIdle)
                && DecidedBy(found.value.0, found.value.1, history, |old(history)|)
                && found.value.0 in matching[key]
      ensures found.None? ==> AllPassedOver(matching[key], |matching[key]|, history, |old(history)|, minIdle)
    {
      hide Justified, DecidedBy, SomePassedOver, Tells, Past, OnceListed, AllFresh;
      var ps := matching[key];
      for i := 0 to |ps|
        invariant Valid() && now >= old(now) && old(history) <= history
        invariant AllFresh(store, matching, waiting) && Fresh(store, ps, i)
        invariant AllPassedOver(ps, i, history, |old(history)|, minIdle)
      {
        ghost var before, seen := store, history;
        var exec: Exec := *;
        var reply: Reply := *;
        var reason := Inspect(ps[i], minIdle, exec, reply);
        OthersStayFresh(before, store, matching, waiting, key, i);
        if reason.Some? {
          JustifiedSince(ps[i], reason.value, history, |seen|, |old(history)|, now, minIdle);
          DecidedSince(ps[i], reason.value, history, |seen|, |old(history)|);
          return Some((ps[i], reason.value));
        }
        PassedOverStays(ps, i, seen, history, |old(history)|, minIdle);
        PassedSince(ps[i], history, |seen|, |old(history)|, minIdle);
      }
      found := None;
    }
  }

  lemma {:induction false} UnscheduledIsJustified(p: Candidate, events: seq<Event>, since: nat, now: Time, minIdle: Time)
    requires IsUnscheduled(p)
    ensures Justified(p, Unscheduled, events, since, now, minIdle) && DecidedBy(p, Unscheduled, events, since)
  {
  }

  // What the inspection of a pod adds to the history, and what its decision is worth.
  lemma {:induction false} Remembered(events: seq<Event>, store: map<string, Option<Stamp>>, p: Candidate,
                                      minIdle: Time, e: Event, start: Time)
    requires Tells(events, store) && Past(events, start) && p.name in store && store[p.name] == p.stamp
    requires e.Inspected? && e.pod == p.name && !IsUnscheduled(p)
    ensures StampOf(events + [e], p.name) == StampAfter(p.stamp, e.exec, e.reply, e.judged)
    ensures var found := Decision(p, e.exec, e.judged, minIdle);
            if found.Some? then Justified(p, found.value, events + [e], |events|, e.judged, minIdle)
            else SomePassedOver(p, events + [e], |events|, minIdle)
  {
    StampsAppend(events, e, p.name);
    IdleTooLongExactlyWhen(events, p, e.exec, e.judged, minIdle);
    hide IdleLongEnough, IsGone, StampOf, Past, Tells;
    assert (events + [e])[|events|] == e;
    if Decision(p, e.exec, e.judged, minIdle) == Some(IdleTooLong) {
      StillIdle(events, e, p.name, e.judged, minIdle);
    }
  }

  lemma {:induction false} DecidedSince(p: Candidate, reason: Reason, history: seq<Event>, since: nat, earlier: nat)
    requires DecidedBy(p, reason, history, since) && earlier <= since
    ensures DecidedBy(p, reason, history, earlier)
  {
    hide Mentions;
  }

  lemma {:induction false} JustifiedSince(p: Candidate, reason: Reason, history: seq<Event>, since: nat, earlier: nat,
                                          now: Time, minIdle: Time)
    requires Justified(p, reason, history, since, now, minIdle) && earlier <= since
    ensures Justified(p, reason, history, earlier, now, minIdle)
  {
    hide IdleLongEnough, IsGone;
  }

  lemma {:induction false} PassedSince(p: Candidate, history: seq<Event>, since: nat, earlier: nat, minIdle: Time)
    requires SomePassedOver(p, history, since, minIdle) && earlier <= since
    ensures SomePassedOver(p, history, earlier, minIdle)
  {
  }

  lemma {:induction false} PassedOverSince(ps: seq<Candidate>, n: nat, history: seq<Event>, since: nat,
                                           earlier: nat, minIdle: Time)
    requires n <= |ps| && AllPassedOver(ps, n, history, since, minIdle) && earlier <= since
    ensures AllPassedOver(ps, n, history, earlier, minIdle)
  {
    forall k | 0 <= k < n ensures SomePassedOver(ps[k], history, earlier, minIdle) {
      PassedSince(ps[k], history, since, earlier, minIdle);
    }
  }

  lemma {:induction false} FirstIsFresh(store: map<string, Option<Stamp>>, matching: map<string, seq<Candidate>>,
                                        keys: set<string>, key: string)
    requires AllFresh(store, matching, keys) && key in keys && key in matching
    ensures AllFresh(store, matching, keys - {key}) && Fresh(store, matching[key], 0)
  {
  }
}
