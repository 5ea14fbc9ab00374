/** Pods that are not counted under the demand they were created for. */
module Uncounted {
  import opened Outcomes
  import opened Spec
  import opened Text
  import opened Capabilities
  import opened Index
  import opened Requests
  import opened Collisions
  import opened ExtraContainers
  import opened Listing
  import Bags
  import opened Convergence
  import opened Scaler
  import opened Passes

  /**
   Without empty values, the pod created for a demand is counted under that demand again if and only if the
   demand holds no misplaced separator.
   */
  lemma {:induction false} GoodKeyExactlyWhenClean(t: Template, m: Caps)
    requires Matches(m, t.caps) && NoEmptyValue(m) && NoEmptyValue(Parse(Print(m)))
    ensures GoodKey(t, Print(m)) <==> Clean(m)
  {
    hide Matches, Clean, NoEmptyValue, Print, Parse;
    RoundTripExactlyWhenClean(m);
    if GoodKey(t, Print(m)) {
      MatchesPrintApart(Parse(Print(m)), m, t.caps);
    }
  }

  lemma {:induction false} UncountedPods(t: Template, key: string, pods: seq<Pod>, quantity: string -> bool)
    requires !Matches(Parse(key), t.caps) && forall p | p in pods :: IsAgentPod(p, t, Parse(key), quantity)
    ensures PodBag(pods, t.caps) == multiset{}
  {
    hide Matches, Print, Parse;
    if pods != [] {
      var n := |pods| - 1;
      assert pods[n] in pods;
      UncountedPods(t, key, pods[..n], quantity);
      ParsePrintParse(key);
    }
  }

  /**
   If the parsed demand does not match the template any more, its pods are never counted: however many there are
   already, a complete pass creates another one, whatever MaxCount is.
   */
  lemma {:induction false} UncountedDemandNeverEnds(t: Template, key: string, pods: seq<Pod>, requests: seq<Request>,
                                                    quantity: string -> bool, e: Effect)
    requires t.minCount == 0 < t.maxCount && JobBag(requests, t.caps) == multiset{key}
    requires !Matches(Parse(key), t.caps) && forall p | p in pods :: IsAgentPod(p, t, Parse(key), quantity)
    requires Allowed(BoundsOf(t), PodBag(pods, t.caps), JobBag(requests, t.caps), e) && e.complete
    ensures e.created == [key] && e.victim.None?
  {
    UncountedPods(t, key, pods, quantity);
    hide PodBag, JobBag, Matches, IsAgentPod, Parse, Print;
    assert multiset{key} - multiset{} == multiset{key};
    assert e.created[0] in multiset(e.created);
  }

  lemma {:induction false} OnePending(r: Request)
    requires !r.finished
    ensures PendingOf([r]) == [TagRequest(r)]
  {
    hide TagRequest;
    assert [r][..0] == [];
  }

  lemma {:induction false} PrintOne(k: string, v: string)
    ensures Print(map[k := v]) == Pair(k, v)
  {
    var m: Caps := map[k := v];
    SortedListingUnique([k], SortedKeys(m.Keys), m.Keys);
    assert Pairs(m, [k]) == [Pair(k, v)];
  }

  lemma {:induction false} CollectTwo(first: string, second: string)
    ensures Collect([first, second]) == AddPart(AddPart(map[], first), second)
  {
    hide AddPart;
    assert [first, second][..1] == [first] && [first][..0] == [];
    assert Collect([first]) == AddPart(map[], first);
  }

  lemma {:induction false} SplitTwo(first: string, second: string)
    requires ';' !in first && ';' !in second
    ensures Split(first + ";" + second, ";") == [first, second]
  {
    hide Split;
    assert Join([first, second], ";") == first + ";" + second;
    SplitJoin([first, second], ";");
  }

  lemma {:induction false} AddPair(m: Caps, k: string, v: string)
    requires '=' !in k
    ensures AddPart(m, Pair(k, v)) == m[k := v]
  {
    hide Cut;
    CutFirst(k, "=", v);
  }

  lemma {:induction false} ParseTwo(a: string, v: string, b: string, w: string)
    requires '=' !in a && ';' !in a && ';' !in v && '=' !in b && ';' !in b && ';' !in w
    ensures Parse(Pair(a, v) + ";" + Pair(b, w)) == map[a := v][b := w]
  {
    hide Split, Collect, AddPart;
    SplitTwo(Pair(a, v), Pair(b, w));
    CollectTwo(Pair(a, v), Pair(b, w));
    AddPair(map[], a, v);
    AddPair(map[a := v], b, w);
  }

  lemma {:induction false} ReadFromRequest(r: Request, s: string)
    requires r.demands == [EXTRA_CONTAINERS + EQUALS + s] && forall i | 0 <= i < |s| :: !IsSpace(s[i])
    ensures DemandsOf(r.demands) == map[EXTRA_CONTAINERS := s]
  {
    DemandCarries(map[], s);
    hide AddDemand;
    assert r.demands[..0] == [];
  }

  // The pair after the separator becomes a capability of its own.
  lemma {:induction false} PairIsSplitOff(s: string, k: string, v: string)
    requires ';' !in s && '=' !in k && ';' !in k && ';' !in v && k != EXTRA_CONTAINERS && v != ""
    ensures var caps := Parse(Pair(EXTRA_CONTAINERS, s + ";" + Pair(k, v)));
            !Matches(caps, map[]) && EXTRA_CONTAINERS in caps && caps[EXTRA_CONTAINERS] == s
  {
    hide Parse;
    ParseTwo(EXTRA_CONTAINERS, s, k, v);
    var caps: Caps := map[EXTRA_CONTAINERS := s][k := v];
    assert Get(caps, k) == v && Get(map[], k) == "";
    assert Pair(EXTRA_CONTAINERS, s + ";" + Pair(k, v)) == Pair(EXTRA_CONTAINERS, s) + ";" + Pair(k, v);
  }

  lemma {:induction false} OneJob(r: Request, value: string)
    requires !r.finished && DemandsOf(r.demands) == map[EXTRA_CONTAINERS := value]
    ensures JobBag([r], map[]) == multiset{Print(map[EXTRA_CONTAINERS := value])}
  {
    OnePending(r);
    hide Print, PendingOf;
    var m: Caps := map[EXTRA_CONTAINERS := value];
    assert Matches(m, map[]);
    assert Bags.Bag([TagRequest(r)][..0], map[]) == multiset{};
  }

  /**
   Such a demand: a further pair after the containers that are asked for. For a template without capabilities
   the request is served, with those containers, by pods that do not count.
   */
  lemma {:induction false} PairAfterContainers(request: Request, containers: seq<Container>, k: string, v: string,
                                               quantity: string -> bool)
    requires (forall c | c in containers :: Writable(c, quantity)) && k != EXTRA_CONTAINERS && v != ""
    requires forall i | 0 <= i < |k| :: k[i] != '=' && k[i] != ';' && !IsSpace(k[i])
    requires forall i | 0 <= i < |v| :: v[i] != ';' && !IsSpace(v[i])
    requires request.demands == [EXTRA_CONTAINERS + EQUALS + (Write(containers) + ";" + Pair(k, v))] && !request.finished
    ensures var key := Pair(EXTRA_CONTAINERS, Write(containers) + ";" + Pair(k, v));
            && JobBag([request], map[]) == multiset{key} && !Matches(Parse(key), map[])
            && EXTRA_CONTAINERS in Parse(key) && Read(Parse(key)[EXTRA_CONTAINERS], quantity) == Some(containers)
  {
    var s, pair := Write(containers), Pair(k, v);
    var value := s + ";" + pair;
    WrittenIsPlain(containers, quantity);
    assert forall i | 0 <= i < |pair| :: !IsSpace(pair[i]);
    hide *;
    PairIsSplitOff(s, k, v);
    ReadFromRequest(request, value);
    OneJob(request, value);
    PrintOne(EXTRA_CONTAINERS, value);
    WriteRead(containers, quantity);
  }
}
