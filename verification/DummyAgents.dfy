/**
 The offline agents that keep the platform from rejecting pipelines: one is registered per template, their
 names are cached by a digest of the resource, and agents that are no longer needed are collected.
 */
module DummyAgents {
  import opened Clock
  import opened Outcomes
  import opened Spec
  import opened Lease
  import opened Text

  const PREFIX: string := "dummy-agent"

  // The capabilities of the templates, in order, and whatever else the resource says.
  datatype Resource = Resource(caps: seq<Caps>, rest: string)

  datatype Policy = Policy(interval: Time, dummyMinAge: Time, normalMinAge: Time)

  datatype Agent = Agent(id: int, name: string, online: bool, createdOn: Time)

  // The digest also depends on the order in which maps happen to be encoded.
  type Digest = (Resource, int) -> string

  /** Resources with the same digest have the same capabilities, in the same order. */
  ghost predicate Separates(digest: Digest) {
    forall a, b, m, n :: digest(a, m) == digest(b, n) ==> a.caps == b.caps
  }

  function NameOf(caps: Caps, hash: Caps -> string): string {
    if caps == map[] then PREFIX else PREFIX + "-" + hash(caps)
  }

  function NamesOf(caps: seq<Caps>, hash: Caps -> string): seq<string> {
    seq(|caps|, i requires 0 <= i < |caps| => NameOf(caps[i], hash))
  }

  ghost predicate Injective(hash: Caps -> string) {
    forall a, b :: hash(a) == hash(b) ==> a == b
  }

  /** Different templates get different names; only one without capabilities gets the bare prefix. */
  ghost predicate NamesTellApart(caps: seq<Caps>, names: seq<string>) {
    && |names| == |caps|
    && (forall i | 0 <= i < |caps| :: names[i] == "dummy-agent" <==> caps[i] == map[])
    && (forall i, j | 0 <= i < |caps| && 0 <= j < |caps| :: names[i] == names[j] <==> caps[i] == caps[j])
  }

  lemma {:induction false} NameTellsApart(a: Caps, b: Caps, hash: Caps -> string)
    requires Injective(hash)
    ensures NameOf(a, hash) == "dummy-agent" <==> a == map[]
    ensures NameOf(a, hash) == NameOf(b, hash) <==> a == b
  {
    var n := |"dummy-agent"|;
    assert a != map[] ==> NameOf(a, hash)[n + 1..] == hash(a) && |NameOf(a, hash)| > n;
    assert b != map[] ==> NameOf(b, hash)[n + 1..] == hash(b) && |NameOf(b, hash)| > n;
  }

  lemma {:induction false} NamesOfTellApart(caps: seq<Caps>, hash: Caps -> string)
    requires Injective(hash)
    ensures NamesTellApart(caps, NamesOf(caps, hash))
  {
    hide NameOf;
    forall i, j | 0 <= i < |caps| && 0 <= j < |caps|
      ensures NamesOf(caps, hash)[i] == "dummy-agent" <==> caps[i] == map[]
      ensures NamesOf(caps, hash)[i] == NamesOf(caps, hash)[j] <==> caps[i] == caps[j]
    {
      NameTellsApart(caps[i], caps[j], hash);
    }
  }

  ghost function Written(m: Caps, keys: seq<string>): string
    requires forall k | k in keys :: k in m
  {
    if keys == [] then "" else keys[0] + m[keys[0]] + Written(m, keys[1..])
  }

  // What the hash of a template is computed from: each key in order, then its value, with nothing in between.
  ghost function HashInput(m: Caps): string {
    Written(m, SortedKeys(m.Keys))
  }

  ghost predicate HashesInput(hash: Caps -> string, sum: string -> string) {
    forall m :: hash(m) == sum(HashInput(m))
  }

  lemma {:induction false} WrittenOne(k: string, v: string)
    ensures HashInput(map[k := v]) == k + v
  {
    var m: Caps := map[k := v];
    SortedListingUnique([k], SortedKeys(m.Keys), m.Keys);
    assert Written(m, [k]) == k + v + Written(m, []);
  }

  /**
   With the hash that is used the names differ exactly when what is hashed does, as long as the sums of different
   strings do.
   */
  lemma {:induction false} NamesDifferExactlyWhenInputsDo(a: Caps, b: Caps, hash: Caps -> string, sum: string -> string)
    requires HashesInput(hash, sum) && forall s, t :: sum(s) == sum(t) ==> s == t
    ensures a != map[] && b != map[] ==> (NameOf(a, hash) == NameOf(b, hash) <==> HashInput(a) == HashInput(b))
    ensures a == map[] && b != map[] ==> NameOf(a, hash) != NameOf(b, hash)
  {
    hide HashInput;
    var n := |PREFIX|;
    assert a != map[] ==> NameOf(a, hash)[n + 1..] == hash(a) && |NameOf(a, hash)| > n;
    assert b != map[] ==> NameOf(b, hash)[n + 1..] == hash(b) && |NameOf(b, hash)| > n;
  }

  /**
   It does not tell all templates apart: where a key ends and its value begins is not hashed, so whatever the sum
   is, two templates that split the same characters differently share one dummy agent.
   */
  lemma {:induction false} SplitDifferently(k: string, x: string, v: string, hash: Caps -> string, sum: string -> string)
    requires HashesInput(hash, sum) && x != ""
    ensures var a: Caps, b: Caps := map[k + x := v], map[k := x + v];
            a != b && NameOf(a, hash) == NameOf(b, hash) && !Injective(hash)
  {
    var a: Caps, b: Caps := map[k + x := v], map[k := x + v];
    WrittenOne(k + x, v);
    WrittenOne(k, x + v);
    assert k + x + v == k + (x + v);
    hide HashInput;
    assert hash(a) == hash(b);
    assert k in b && |k + x| > |k|;
  }

  function Members<T>(s: seq<T>): set<T> {
    set x | x in s
  }

  lemma {:induction false} MembersOneMore<T>(before: seq<T>, last: T)
    ensures Members(before + [last]) == Members(before) + {last}
    ensures |Members(before + [last])| == |Members(before)| + if last in before then 0 else 1
  {
    var all := before + [last];
    assert Members(all) == Members(before) + {last};
  }

  lemma {:induction false} LastTellsApart(caps: seq<Caps>, c: Caps, names: seq<string>, n: string)
    requires NamesTellApart(caps + [c], names + [n])
    ensures NamesTellApart(caps, names) && (c in caps <==> n in names)
  {
    var moreCaps, moreNames := caps + [c], names + [n];
    assert |names| == |caps|;
    assert forall i | 0 <= i < |caps| :: moreCaps[i] == caps[i] && moreNames[i] == names[i];
    assert moreCaps[|caps|] == c && moreNames[|caps|] == n;
  }

  lemma {:induction false} AsManyNames(caps: seq<Caps>, names: seq<string>)
    requires NamesTellApart(caps, names)
    ensures |Members(names)| == |Members(caps)|
  {
    assert |names| == |caps|;
    hide NamesTellApart;
    if caps == [] {
      assert names == [] && Members(caps) == {} && Members(names) == {};
    } else {
      var n := |caps| - 1;
      assert caps == caps[..n] + [caps[n]] && names == names[..n] + [names[n]];
      hide *;
      LastTellsApart(caps[..n], caps[n], names[..n], names[n]);
      AsManyNames(caps[..n], names[..n]);
      MembersOneMore(caps[..n], caps[n]);
      MembersOneMore(names[..n], names[n]);
    }
  }

  ghost predicate Registered(agents: set<Agent>, name: string) {
    exists a | a in agents :: a.name == name
  }

  ghost predicate AllRegistered(agents: set<Agent>, names: seq<string>) {
    forall i | 0 <= i < |names| :: Registered(agents, names[i])
  }

  // The names among these under which an agent is registered.
  function RegisteredAmong(agents: set<Agent>, names: seq<string>): set<string> {
    set a | a in agents && a.name in names :: a.name
  }

  lemma {:induction false} AllAmong(agents: set<Agent>, names: seq<string>)
    requires AllRegistered(agents, names)
    ensures RegisteredAmong(agents, names) == Members(names)
  {
    forall n | n in names ensures n in RegisteredAmong(agents, names) {
      var i :| 0 <= i < |names| && names[i] == n;
      assert Registered(agents, names[i]);
      var a :| a in agents && a.name == n;
    }
  }

  // Once all names are registered, there are as many of them as different capabilities.
  lemma {:induction false} RegisteredTellApart(agents: set<Agent>, caps: seq<Caps>, hash: Caps -> string)
    ensures Injective(hash) ==> NamesTellApart(caps, NamesOf(caps, hash))
    ensures Injective(hash) && AllRegistered(agents, NamesOf(caps, hash)) ==>
              |RegisteredAmong(agents, NamesOf(caps, hash))| == |Members(caps)|
  {
    hide *;
    if Injective(hash) {
      NamesOfTellApart(caps, hash);
      AsManyNames(caps, NamesOf(caps, hash));
      if AllRegistered(agents, NamesOf(caps, hash)) {
        AllAmong(agents, NamesOf(caps, hash));
      }
    }
  }

  ghost predicate UniqueIds(agents: set<Agent>) {
    forall a, b | a in agents && b in agents :: a.id == b.id ==> a == b
  }

  predicate Expired(a: Agent, minAge: Time, now: Time) {
    a.createdOn < now - minAge
  }

  predicate IsDeadDummy(a: Agent, policy: Policy, now: Time) {
    PREFIX <= a.name && Expired(a, policy.dummyMinAge, now)
  }

  predicate IsDeadNormal(a: Agent, cr: string, policy: Policy, now: Time) {
    cr <= a.name && Expired(a, policy.normalMinAge, now)
  }

  predicate Spared(a: Agent, keep: seq<string>) {
    a.name in keep || a.online
  }

  /** The agents a collection deletes. */
  predicate Doomed(a: Agent, cr: string, policy: Policy, keep: seq<string>, now: Time) {
    !Spared(a, keep) && (IsDeadDummy(a, policy, now) || IsDeadNormal(a, cr, policy, now))
  }

  // The collection tries to delete these twice, and fails on the second attempt.
  predicate DoublyDoomed(a: Agent, cr: string, policy: Policy, keep: seq<string>, now: Time) {
    !Spared(a, keep) && IsDeadDummy(a, policy, now) && IsDeadNormal(a, cr, policy, now)
  }

  /** Which agents are due for deletion: offline ones that are not to be kept, by the ages for the prefixes of their names. */
  predicate IsDue(a: Agent, cr: string, policy: Policy, keep: seq<string>, now: Time) {
    && !a.online && a.name !in keep
    && (("dummy-agent" <= a.name && now - a.createdOn > policy.dummyMinAge)
        || (cr <= a.name && now - a.createdOn > policy.normalMinAge))
  }

  lemma {:induction false} DoomedExactlyWhenDue(a: Agent, cr: string, policy: Policy, keep: seq<string>, now: Time)
    ensures Doomed(a, cr, policy, keep, now) <==> IsDue(a, cr, policy, keep, now)
  {
  }

  lemma {:induction false} DoomedStays(a: Agent, cr: string, policy: Policy, keep: seq<string>, now: Time, later: Time)
    requires now <= later
    ensures Doomed(a, cr, policy, keep, now) ==> Doomed(a, cr, policy, keep, later)
    ensures DoublyDoomed(a, cr, policy, keep, now) ==> DoublyDoomed(a, cr, policy, keep, later)
  {
  }

  // A collection that ran to its end.
  datatype Collection = Collection(began: Time, ended: Time, interval: Time)

  ghost predicate WellSpaced(collections: seq<Collection>) {
    forall i | 0 < i < |collections| ::
      collections[i].began - collections[i - 1].ended >= collections[i].interval
  }

  datatype Outcome = Skipped | Completed | Aborted

  class Housekeeper {
    const digest: Digest
    const hash: Caps -> string
    var names: map<string, seq<string>>
    var hashes: map<string, string>
    var lastDeletion: Time
    var agents: set<Agent>
    var now: Time
    ghost var origins: map<string, (Resource, int)>
    ghost var collections: seq<Collection>
    // How many calls have failed so far, and how many of them the platform answered with an error, or not at
    // all, although they were right: deleting an agent that is gone already is not one of these.
    ghost var failures: nat
    ghost var refused: nat

    ghost predicate CacheValid()
      reads this
    {
      && Separates(digest)
      && forall cr | cr in hashes ::
           && cr in names && cr in origins
           && hashes[cr] == digest(origins[cr].0, origins[cr].1)
           && names[cr] == NamesOf(origins[cr].0.caps, hash)
    }

    ghost predicate CollectorValid()
      reads this
    {
      && UniqueIds(agents) && WellSpaced(collections) && lastDeletion <= now
      && (collections != [] ==> collections[|collections| - 1].ended == lastDeletion)
    }

    ghost predicate Valid()
      reads this
    {
      CacheValid() && CollectorValid()
    }

    constructor (digest: Digest, hash: Caps -> string, start: Time, now: Time)
      requires Separates(digest) && start <= now
      ensures Valid() && hashes == map[] && agents == {}
    {
      this.digest, this.hash := digest, hash;
      names, hashes, origins := map[], map[], map[];
      lastDeletion, this.now, collections, failures, refused := start, now, [], 0, 0;
      agents := {};
    }

    method Wait()
      modifies this`now
      ensures now >= old(now)
    {
      var elapsed: int := *;
      if elapsed > 0 {
        now := now + elapsed;
      }
    }

    // Registers one agent; a name that is taken is no error.
    method Register(name: string) returns (ok: bool, ghost reply: Reply)
      requires UniqueIds(agents)
      modifies this`agents, this`failures
      ensures UniqueIds(agents) && old(agents) <= agents
      ensures forall a | a in agents - old(agents) :: a.name == name && !a.online
      ensures ok ==> Registered(agents, name)
      ensures Registered(old(agents), name) ==> agents == old(agents) && (ok <==> reply != Rejected)
      ensures failures == old(failures) + if ok then 0 else 1
    {
      var answer: Reply := *;
      reply := answer;
      var id: int := *;
      ok := false;
      if answer != Rejected {
        if exists a | a in agents :: a.name == name {
          ok := true;
        } else if !exists a | a in agents :: a.id == id {
          var agent := Agent(id, name, false, now);
          agents := agents + {agent};
          assert agent in agents;
          ok := answer == Done;
        }
      }
      failures := failures + if ok then 0 else 1;
    }

    /**
     The names of the dummy agents, from the cache or by registering them. Whatever the cache did before, the
     names are those of the resource's own templates.
     */
    method CreateOrUpdateDummyAgents(cr: string, resource: Resource) returns (r: Option<seq<string>>, ghost cached: bool,
                                                                              ghost order: int)
      requires Valid()
      modifies this
      ensures forall k | k in old(hashes) :: k in old(names)
      ensures Valid() && now == old(now) && collections == old(collections) && lastDeletion == old(lastDeletion)
      ensures r.Some? ==> r.value == NamesOf(resource.caps, hash)
      ensures r.None? ==> names == old(names) && hashes == old(hashes)
      ensures r.Some? ==> cr in hashes && names == old(names)[cr := r.value]
      ensures old(agents) <= agents
      ensures forall a | a in agents - old(agents) :: a.name in NamesOf(resource.caps, hash)
      ensures cached ==> cr in old(hashes) && agents == old(agents) && r == Some(old(names)[cr])
      ensures r.Some? && !cached ==> AllRegistered(agents, r.value)
      ensures r.Some? && Injective(hash) ==> NamesTellApart(resource.caps, r.value)
      ensures r.Some? && Injective(hash) && !cached ==> |RegisteredAmong(agents, r.value)| == |Members(resource.caps)|
      ensures cached <==> cr in old(hashes) && old(hashes)[cr] == digest(resource, order)
      ensures r.Some? ==> hashes == old(hashes)[cr := digest(resource, order)]
      ensures failures >= old(failures) && (r.Some? <==> failures == old(failures))
    {
      hide NamesOf, WellSpaced, UniqueIds, Injective, NamesTellApart, RegisteredAmong, Members, AllRegistered;
      var encoded: int := *;
      order := encoded;
      var crHash := digest(resource, encoded);
      cached := cr in hashes && hashes[cr] == crHash;
      if cr in hashes && hashes[cr] == crHash {
        SameDigest(digest, origins[cr].0, origins[cr].1, resource, encoded);
        RegisteredTellApart(agents, resource.caps, hash);
        return Some(names[cr]), true, order;
      }
      var ok, registered := RegisterAll(resource.caps);
      if !ok {
        return None, false, order;
      }
      RegisteredTellApart(agents, resource.caps, hash);
      names, hashes := names[cr := registered], hashes[cr := crHash];
      origins := origins[cr := (resource, order)];
      return Some(registered), false, order;
    }

    method RegisterAll(caps: seq<Caps>) returns (ok: bool, registered: seq<string>)
      requires UniqueIds(agents)
      modifies this`agents, this`failures
      ensures failures >= old(failures) && (ok <==> failures == old(failures))
      ensures UniqueIds(agents) && old(agents) <= agents
      ensures forall a | a in agents - old(agents) :: a.name in NamesOf(caps, hash)
      ensures ok ==> registered == NamesOf(caps, hash) && AllRegistered(agents, registered)
    {
      hide UniqueIds, Registered;
      registered := [];
      for i := 0 to |caps|
        invariant registered == NamesOf(caps, hash)[..i] && failures == old(failures)
        invariant UniqueIds(agents) && old(agents) <= agents && AllRegistered(agents, registered)
        invariant forall a | a in agents - old(agents) :: a.name in NamesOf(caps, hash)
      {
        var name := NameOf(caps[i], hash);
        assert NamesOf(caps, hash)[i] == name;
        ghost var before := agents;
        ghost var reply;
        ok, reply := Register(name);
        StillRegistered(before, agents, registered);
        if !ok {
          return;
        }
        registered := registered + [name];
      }
      ok := true;
    }

    /**
     The two halves of a pass. While only this resource's passes delete its dummy agents, the agents that the
     cache names stay registered, over any number of passes, changes of the resource and failed calls.
     */
    method Housekeep(cr: string, resource: Resource, policy: Policy) returns (r: Option<seq<string>>)
      requires Valid() && (cr in hashes ==> AllRegistered(agents, names[cr]))
      modifies this
      ensures Valid() && (cr in hashes ==> AllRegistered(agents, names[cr]))
      ensures r.Some? ==> r.value == NamesOf(resource.caps, hash) && AllRegistered(agents, r.value)
      ensures forall a | a in old(agents) && a.name in NamesOf(resource.caps, hash) :: a in agents
      ensures forall a | a in old(agents) - agents :: r.Some? && Doomed(a, cr, policy, r.value, now)
    {
      hide NamesOf, Separates, UniqueIds, WellSpaced, AllRegistered;
      ghost var start, cachedNames := agents, if cr in hashes then names[cr] else [];
      ghost var cached, order;
      r, cached, order := CreateOrUpdateDummyAgents(cr, resource);
      StillRegistered(start, agents, cachedNames) by { NoneRegistered(start); }
      if r.Some? {
        ghost var registered := agents;
        var outcome;
        ghost var deleted;
        outcome, deleted := DeleteDeadDummyAgents(cr, policy, r.value);
        forall a | a in registered - agents ensures Doomed(a, cr, policy, r.value, now) {
          DoomedStays(a, cr, policy, r.value, deleted[a], now);
        }
        KeptStayRegistered(registered, agents, cr, policy, r.value, now);
        forall a | a in registered && a.name in r.value ensures a in agents {
          SparedIsNotDoomed(a, cr, policy, r.value, now);
          assert a !in registered - agents;
        }
      }
    }

    method DeleteAgent(id: int) returns (ok: bool)
      modifies this`agents, this`failures, this`refused
      ensures agents <= old(agents) && forall a | a in old(agents) && a.id != id :: a in agents
      ensures ok ==> (exists a | a in old(agents) :: a.id == id) && forall a | a in agents :: a.id != id
      ensures failures == old(failures) + if ok then 0 else 1
      ensures refused >= old(refused) && (refused == old(refused) ==> (ok <==> exists a | a in old(agents) :: a.id == id))
    {
      var reply: Reply := *;
      ok := reply == Done && exists a | a in agents :: a.id == id;
      if reply != Rejected {
        agents := set a | a in agents && a.id != id;
      }
      failures := failures + if ok then 0 else 1;
      refused := refused + if reply == Done then 0 else 1;
    }

    // Deals with one listed agent: both deletion rules are applied, one after the other.
    method CollectAgent(a: Agent, cr: string, policy: Policy, keep: seq<string>) returns (ok: bool, ghost at: Time)
      requires UniqueIds(agents) && a in agents
      modifies this`agents, this`now, this`failures, this`refused
      ensures old(now) <= at <= now && UniqueIds(agents)
      ensures agents == old(agents) || (agents == old(agents) - {a} && Doomed(a, cr, policy, keep, at))
      ensures ok && Doomed(a, cr, policy, keep, old(now)) ==> a !in agents
      ensures ok ==> !DoublyDoomed(a, cr, policy, keep, old(now))
      ensures failures >= old(failures) && (ok <==> failures == old(failures))
      ensures refused >= old(refused)
      ensures !ok && refused == old(refused) ==> DoublyDoomed(a, cr, policy, keep, now)
    {
      ok, at := true, now;
      if !(a.name in keep || a.online) {
        if PREFIX <= a.name {
          Wait();
          if Expired(a, policy.dummyMinAge, now) {
            at := now;
            ok := DeleteAgent(a.id);
            if !ok {
              return;
            }
          }
        }
        if cr <= a.name {
          Wait();
          if Expired(a, policy.normalMinAge, now) {
            if a in agents {
              at := now;
            }
            ok := DeleteAgent(a.id);
          }
        }
      }
    }

    /**
     The collection of dead agents, at most once per interval. Everything that goes was offline, not to be
     kept and old enough when it was deleted; a completed collection misses nothing that was due when it
     began. If no call is refused, it fails only over an agent that falls under both rules, and it does not
     get past one that did so when it began.
     */
    method DeleteDeadDummyAgents(cr: string, policy: Policy, keep: seq<string>)
      returns (outcome: Outcome, ghost deleted: map<Agent, Time>)
      requires Valid()
      modifies this`agents, this`now, this`lastDeletion, this`collections, this`failures, this`refused
      ensures Valid() && now >= old(now)
      ensures agents == old(agents) - deleted.Keys && deleted.Keys <= old(agents)
      ensures forall a | a in deleted :: old(now) <= deleted[a] <= now && Doomed(a, cr, policy, keep, deleted[a])
      ensures outcome.Completed? ==> forall a | a in agents :: !Doomed(a, cr, policy, keep, old(now))
      ensures forall a | a in deleted :: IsDue(a, cr, policy, keep, deleted[a])
      ensures outcome.Completed? ==> forall a | a in agents :: !IsDue(a, cr, policy, keep, old(now))
      ensures outcome.Completed? ==> forall a | a in old(agents) :: !DoublyDoomed(a, cr, policy, keep, old(now))
      ensures outcome.Skipped? <==> old(now) - policy.interval < old(lastDeletion)
      ensures outcome.Completed? ==> lastDeletion == now
      ensures !outcome.Completed? ==> lastDeletion == old(lastDeletion)
      ensures outcome.Skipped? ==> agents == old(agents)
      ensures failures >= old(failures) && (outcome.Aborted? <==> failures > old(failures))
      ensures refused >= old(refused)
      ensures outcome.Aborted? && refused == old(refused) ==>
                exists a | a in old(agents) :: DoublyDoomed(a, cr, policy, keep, now)
    {
      deleted := map[];
      if now - policy.interval < lastDeletion {
        return Skipped, deleted;
      }
      ghost var began := now;
      var ok;
      ok, deleted := CollectAll(cr, policy, keep);
      if !ok {
        return Aborted, deleted;
      }
      collections := collections + [Collection(began, now, policy.interval)];
      lastDeletion := now;
      return Completed, deleted;
    }

    method CollectAll(cr: string, policy: Policy, keep: seq<string>) returns (ok: bool, ghost deleted: map<Agent, Time>)
      requires UniqueIds(agents)
      modifies this`agents, this`now, this`failures, this`refused
      ensures UniqueIds(agents) && now >= old(now)
      ensures agents == old(agents) - deleted.Keys && deleted.Keys <= old(agents)
      ensures forall a | a in deleted :: old(now) <= deleted[a] <= now && Doomed(a, cr, policy, keep, deleted[a])
      ensures ok ==> forall a | a in agents :: !Doomed(a, cr, policy, keep, old(now))
      ensures ok ==> forall a | a in old(agents) :: !DoublyDoomed(a, cr, policy, keep, old(now))
      ensures failures >= old(failures) && (ok <==> failures == old(failures))
      ensures refused >= old(refused)
      ensures !ok && refused == old(refused) ==>
                exists a | a in old(agents) :: DoublyDoomed(a, cr, policy, keep, now)
    {
      hide Doomed, DoublyDoomed, UniqueIds;
      ghost var began := now;
      deleted := map[];
      Wait();
      ok := *;
      if !ok {
        failures, refused := failures + 1, refused + 1;
        return;
      }
      var pending := agents;
      while pending != {}
        invariant ok && pending <= agents && UniqueIds(agents) && now >= began
        invariant failures == old(failures) && refused >= old(refused)
        invariant agents == old(agents) - deleted.Keys && deleted.Keys <= old(agents)
        invariant forall a | a in deleted :: began <= deleted[a] <= now && Doomed(a, cr, policy, keep, deleted[a])
        invariant forall a | a in agents - pending :: !Doomed(a, cr, policy, keep, began)
        invariant forall a | a in old(agents) - pending :: !DoublyDoomed(a, cr, policy, keep, began)
        decreases |pending|
      {
        var a :| a in pending;
        DoomedStays(a, cr, policy, keep, began, now);
        ghost var before, at := agents, now;
        ok, at := CollectAgent(a, cr, policy, keep);
        pending := pending - {a};
        if agents != before {
          deleted := deleted[a := at];
        }
        if !ok {
          return;
        }
      }
    }
  }

  lemma {:induction false} SparedIsNotDoomed(a: Agent, cr: string, policy: Policy, keep: seq<string>, now: Time)
    requires Spared(a, keep)
    ensures !Doomed(a, cr, policy, keep, now)
  {
  }

  lemma {:induction false} NoneRegistered(agents: set<Agent>)
    ensures AllRegistered(agents, [])
  {
  }

  lemma {:induction false} KeptStayRegistered(before: set<Agent>, after: set<Agent>, cr: string, policy: Policy,
                                              keep: seq<string>, now: Time)
    requires AllRegistered(before, keep)
    requires forall a | a in before - after :: Doomed(a, cr, policy, keep, now)
    ensures AllRegistered(after, keep)
  {
    forall i | 0 <= i < |keep| ensures Registered(after, keep[i]) {
      assert Registered(before, keep[i]);
      var a :| a in before && a.name == keep[i];
      SparedIsNotDoomed(a, cr, policy, keep, now);
      assert a !in before - after;
    }
  }

  /** The name is needed, or the agent is online, or too young for every rule that applies to a dummy agent's name. */
  predicate Tolerated(a: Agent, cr: string, policy: Policy, keep: seq<string>, now: Time) {
    || a.name in keep || a.online
    || (now - a.createdOn <= policy.dummyMinAge && (cr <= a.name ==> now - a.createdOn <= policy.normalMinAge))
  }

  lemma {:induction false} ToleratedExactlyWhenNotDoomed(caps: Caps, hash: Caps -> string, a: Agent, cr: string,
                                                         policy: Policy, keep: seq<string>, now: Time)
    requires a.name == NameOf(caps, hash)
    ensures !Doomed(a, cr, policy, keep, now) <==> Tolerated(a, cr, policy, keep, now)
  {
    if caps != map[] {
      assert a.name[..|PREFIX|] == PREFIX;
    }
  }

  /**
   The list of agents to keep covers one resource only: a completed collection for another resource, as its
   contract describes it, leaves a dummy agent that is tolerated until its end, and only such as are tolerated at
   its beginning.
   */
  lemma {:induction false} SurvivesOthersWhileTolerated(caps: Caps, hash: Caps -> string, a: Agent, cr: string,
                                                        policy: Policy, keep: seq<string>, before: set<Agent>,
                                                        deleted: map<Agent, Time>, began: Time, ended: Time)
    requires a.name == NameOf(caps, hash) && a in before
    requires forall b | b in deleted :: began <= deleted[b] <= ended && Doomed(b, cr, policy, keep, deleted[b])
    requires forall b | b in before - deleted.Keys :: !Doomed(b, cr, policy, keep, began)
    ensures Tolerated(a, cr, policy, keep, ended) ==> a !in deleted
    ensures a !in deleted ==> Tolerated(a, cr, policy, keep, began)
  {
    ToleratedExactlyWhenNotDoomed(caps, hash, a, cr, policy, keep, began);
    ToleratedExactlyWhenNotDoomed(caps, hash, a, cr, policy, keep, ended);
    if a in deleted {
      DoomedStays(a, cr, policy, keep, deleted[a], ended);
    }
  }

  /**
   A resource whose name is a prefix of the dummy agents' names dooms each of its superfluous old dummy agents
   twice, so its collections fail over them although no call is refused.
   */
  lemma {:induction false} ResourceNamedLikeDummies(caps: Caps, hash: Caps -> string, a: Agent, policy: Policy,
                                                    keep: seq<string>, now: Time)
    requires a.name == NameOf(caps, hash) && a.name !in keep && !a.online
    requires now - a.createdOn > policy.dummyMinAge && now - a.createdOn > policy.normalMinAge
    ensures DoublyDoomed(a, "dummy", policy, keep, now)
  {
    assert "dummy" == PREFIX[..5];
    if caps != map[] {
      assert a.name[..|PREFIX|] == PREFIX;
      assert a.name[..5] == PREFIX[..5];
    }
  }

  lemma {:induction false} SameDigest(digest: Digest, a: Resource, m: int, b: Resource, n: int)
    requires Separates(digest) && digest(a, m) == digest(b, n)
    ensures a.caps == b.caps
  {
  }

  lemma {:induction false} StillRegistered(before: set<Agent>, after: set<Agent>, names: seq<string>)
    requires before <= after && AllRegistered(before, names)
    ensures AllRegistered(after, names)
  {
    forall i | 0 <= i < |names| ensures Registered(after, names[i]) {
      assert Registered(before, names[i]);
    }
  }
}
