/** Job requests and running pods, indexed by capabilities. */
module Requests {
  import opened Spec
  import opened Text
  import opened Capabilities
  import opened Index

  datatype Request = Request(id: int, demands: seq<string>, finished: bool)

  const VERSION_DEMAND: string := "Agent.Version -gtVersion"
  const EQUALS: string := " -equals "

  // unicode.IsSpace
  predicate IsSpace(c: char) {
    || '\t' <= c <= '\r' || c == ' ' || c == '\U{85}' || c == '\U{A0}' || c == '\U{1680}'
    || '\U{2000}' <= c <= '\U{200A}' || c == '\U{2028}' || c == '\U{2029}' || c == '\U{202F}'
    || c == '\U{205F}' || c == '\U{3000}'
  }

  function TrimSpace(s: string): string
    decreases |s|
  {
    if s != "" && IsSpace(s[0]) then TrimSpace(s[1..])
    else if s != "" && IsSpace(s[|s| - 1]) then TrimSpace(s[..|s| - 1])
    else s
  }

  function AddDemand(m: Caps, demand: string): Caps {
    if VERSION_DEMAND <= demand then m
    else
      var parts := Split(demand, EQUALS);
      if |parts| == 1 then m[TrimSpace(demand) := "1"]
      else if |parts| == 2 then m[TrimSpace(parts[0]) := TrimSpace(parts[1])]
      else m
  }

  // Surrounding white space goes, and nothing else.
  lemma {:induction false} TrimsExactly(a: string, s: string, b: string)
    requires (forall i | 0 <= i < |a| :: IsSpace(a[i])) && forall i | 0 <= i < |b| :: IsSpace(b[i])
    requires s != "" ==> !IsSpace(s[0]) && !IsSpace(s[|s| - 1])
    ensures TrimSpace(a + s + b) == s
    decreases |a| + |b|
  {
    hide IsSpace;
    var whole := a + s + b;
    if a != "" {
      assert whole[1..] == a[1..] + s + b && whole[0] == a[0];
      TrimsExactly(a[1..], s, b);
    } else if s == "" && b != "" {
      assert whole == b && b[1..] == a + s + b[1..];
      TrimsExactly(a, s, b[1..]);
    } else if b != "" {
      var n := |b| - 1;
      assert whole[0] == s[0] && whole[|whole| - 1] == b[n] && whole[..|whole| - 1] == a + s + b[..n];
      TrimsExactly(a, s, b[..n]);
    }
  }

  lemma {:induction false} SpacesAreBlank()
    ensures forall c :: IsSpace(c) <==>
              || c in "\t\n\U{0B}\U{0C}\r \U{85}\U{A0}\U{1680}\U{2028}\U{2029}\U{202F}\U{205F}\U{3000}"
              || c in "\U{2000}\U{2001}\U{2002}\U{2003}\U{2004}\U{2005}\U{2006}\U{2007}\U{2008}\U{2009}\U{200A}"
  {
  }

  ghost predicate IsVersionDemand(demand: string) {
    "Agent.Version -gtVersion" <= demand
  }

  // The first place where the word that separates a capability from its value occurs.
  ghost predicate FirstEquals(demand: string, j: nat) {
    Occurs(demand, " -equals ", j) && forall i: nat | i < j :: !Occurs(demand, " -equals ", i)
  }

  /**
   What one demand means: version demands are ignored, a demand without " -equals " is a capability of value 1,
   one that has it once gives the value, and more of them give nothing.
   */
  lemma {:induction false} DemandMeans(m: Caps, demand: string)
    ensures IsVersionDemand(demand) ==> AddDemand(m, demand) == m
    ensures !IsVersionDemand(demand) && (forall j: nat :: !Occurs(demand, " -equals ", j)) ==>
              AddDemand(m, demand) == m[TrimSpace(demand) := "1"]
    ensures !IsVersionDemand(demand) ==>
              forall j: nat | FirstEquals(demand, j) ::
                AddDemand(m, demand) ==
                if OccursFrom(demand, " -equals ", j + 9) then m else m[TrimSpace(demand[..j]) := TrimSpace(demand[j + 9..])]
  {
    forall j: nat | FirstEquals(demand, j)
      ensures |Split(demand, EQUALS)| >= 2
      ensures OccursFrom(demand, " -equals ", j + 9) ==> |Split(demand, EQUALS)| > 2
      ensures !OccursFrom(demand, " -equals ", j + 9) ==> Split(demand, EQUALS) == [demand[..j], demand[j + 9..]]
    {
      SplitAtFirst(demand, EQUALS, j);
    }
    if forall j: nat :: !Occurs(demand, " -equals ", j) {
      SplitNowhere(demand, EQUALS);
    }
    hide TrimSpace, Split, Occurs, OccursFrom;
  }

  function DemandsOf(demands: seq<string>): Caps {
    if demands == [] then map[] else AddDemand(DemandsOf(demands[..|demands| - 1]), demands[|demands| - 1])
  }

  function TagRequest(r: Request): Tagged<Request> {
    Tagged(DemandsOf(r.demands), r)
  }

  // The requests that are still pending, tagged with their demands.
  ghost function PendingOf(requests: seq<Request>): seq<Tagged<Request>> {
    if requests == [] then []
    else
      var last := requests[|requests| - 1];
      PendingOf(requests[..|requests| - 1]) + if last.finished then [] else [TagRequest(last)]
  }

  class PendingJobsWrapper {
    var groups: seq<Group<Request>>
    ghost var added: seq<Tagged<Request>>

    ghost predicate Valid()
      reads this
    {
      groups == GroupAll(added)
    }

    constructor ()
      ensures Valid() && added == []
    {
      groups, added := [], [];
    }

    method AddJobRequest(r: Request)
      requires Valid()
      modifies this
      ensures Valid() && added == old(added) + [TagRequest(r)]
      ensures Conserves(groups, added)
    {
      var demands := map[];
      for i := 0 to |r.demands|
        invariant demands == DemandsOf(r.demands[..i])
      {
        assert r.demands[..i + 1][..i] == r.demands[..i];
        var demand := r.demands[i];
        if !(VERSION_DEMAND <= demand) {
          var parts := Split(demand, EQUALS);
          if |parts| == 1 {
            demands := demands[TrimSpace(demand) := "1"];
          } else if |parts| == 2 {
            demands := demands[TrimSpace(parts[0]) := TrimSpace(parts[1])];
          }
        }
      }
      assert r.demands[..|r.demands|] == r.demands;
      groups := AddToGroups(groups, demands, r);
      added := added + [TagRequest(r)];
      assert added[..|added| - 1] == old(added);
      GroupingConserves(added);
    }
  }

  method GetPendingJobs(requests: seq<Request>) returns (jobs: PendingJobsWrapper)
    ensures fresh(jobs) && jobs.Valid() && jobs.added == PendingOf(requests) && jobs.groups == GroupAll(PendingOf(requests))
    ensures forall r :: Grouped(jobs.groups)[r] == if r.finished then 0 else multiset(requests)[r]
  {
    AllPendingGrouped(requests);
    hide Conserves, GroupAll, DemandsOf, Grouped;
    jobs := new PendingJobsWrapper();
    for i := 0 to |requests|
      invariant fresh(jobs) && jobs.Valid() && jobs.added == PendingOf(requests[..i])
    {
      assert requests[..i + 1][..i] == requests[..i];
      if !requests[i].finished {
        jobs.AddJobRequest(requests[i]);
      }
    }
    assert requests[..|requests|] == requests;
  }

  // All the elements of all groups.
  ghost function Grouped<T>(groups: seq<Group<T>>): multiset<T> {
    if groups == [] then multiset{} else multiset(groups[0].items) + Grouped(groups[1..])
  }

  lemma {:induction false} GroupedFirst<T>(g: Group<T>, rest: seq<Group<T>>)
    ensures Grouped([g] + rest) == multiset(g.items) + Grouped(rest)
  {
    assert ([g] + rest)[1..] == rest;
  }

  lemma {:induction false} FindStep<T>(g: Group<T>, rest: seq<Group<T>>, caps: Caps)
    ensures Find([g] + rest, caps) == if g.caps == caps then 0 else 1 + Find(rest, caps)
  {
    assert ([g] + rest)[1..] == rest;
  }

  lemma {:induction false} FindBehind<T>(g: Group<T>, rest: seq<Group<T>>, caps: Caps, item: T)
    ensures AddTo([g] + rest, caps, item) ==
            if g.caps == caps then [Group(caps, g.items + [item])] + rest else [g] + AddTo(rest, caps, item)
  {
    FindStep(g, rest, caps);
    hide Find;
    var i, all := Find(rest, caps), [g] + rest;
    if g.caps == caps {
      assert all[0 := Group(caps, g.items + [item])] == [Group(caps, g.items + [item])] + rest;
    } else if i < |rest| {
      assert all[i + 1] == rest[i];
      var grown := Group(caps, rest[i].items + [item]);
      assert all[i + 1 := grown] == [g] + rest[i := grown];
    } else {
      assert all + [Group(caps, [item])] == [g] + (rest + [Group(caps, [item])]);
    }
  }

  lemma {:induction false} GroupedOneMore<T>(groups: seq<Group<T>>, caps: Caps, item: T)
    ensures Grouped(AddTo(groups, caps, item)) == Grouped(groups) + multiset{item}
  {
    if groups == [] {
      GroupedFirst(Group(caps, [item]), []);
      assert AddTo(groups, caps, item) == [Group(caps, [item])] + [];
    } else {
      var g, rest := groups[0], groups[1..];
      assert groups == [g] + rest;
      FindBehind(g, rest, caps, item);
      GroupedFirst(g, rest);
      GroupedFirst(Group(caps, g.items + [item]), rest);
      GroupedFirst(g, AddTo(rest, caps, item));
      GroupedOneMore(rest, caps, item);
      assert multiset(g.items + [item]) == multiset(g.items) + multiset{item};
      hide *;
    }
  }

  lemma {:induction false} PendingStep(before: seq<Request>, last: Request)
    ensures PendingOf(before + [last]) == PendingOf(before) + if last.finished then [] else [TagRequest(last)]
  {
    assert (before + [last])[..|before|] == before;
  }

  lemma {:induction false} OccursOneMore<T>(before: seq<T>, last: T, x: T)
    ensures multiset(before + [last])[x] == multiset(before)[x] + if x == last then 1 else 0
  {
    assert multiset(before + [last]) == multiset(before) + multiset{last};
  }

  // A request is among the pending ones as often as it occurs, unless it is finished.
  lemma {:induction false} PendingGrouped(requests: seq<Request>, r: Request)
    ensures Grouped(GroupAll(PendingOf(requests)))[r] == if r.finished then 0 else multiset(requests)[r]
  {
    if requests == [] {
      NothingGrouped<Request>();
    } else {
      var before, last := requests[..|requests| - 1], requests[|requests| - 1];
      assert requests == before + [last];
      TaggedItem(last);
      hide *;
      PendingGrouped(before, r);
      PendingStep(before, last);
      OccursOneMore(before, last, r);
      if last.finished {
        assert PendingOf(before) + [] == PendingOf(before);
      } else {
        GroupAllOneMore(PendingOf(before), TagRequest(last));
      }
    }
  }

  lemma {:induction false} AllPendingGrouped(requests: seq<Request>)
    ensures forall r :: Grouped(GroupAll(PendingOf(requests)))[r] == if r.finished then 0 else multiset(requests)[r]
  {
    hide *;
    forall r ensures Grouped(GroupAll(PendingOf(requests)))[r] == if r.finished then 0 else multiset(requests)[r] {
      PendingGrouped(requests, r);
    }
  }

  lemma {:induction false} NothingGrouped<T>()
    ensures GroupAll<T>([]) == [] && Grouped<T>([]) == multiset{}
  {
  }

  lemma {:induction false} TaggedItem(r: Request)
    ensures TagRequest(r).item == r
  {
  }

  lemma {:induction false} GroupAllOneMore<T>(items: seq<Tagged<T>>, t: Tagged<T>)
    ensures Grouped(GroupAll(items + [t])) == Grouped(GroupAll(items)) + multiset{t.item}
  {
    hide Grouped, AddTo;
    assert (items + [t])[..|items|] == items;
    GroupedOneMore(GroupAll(items), t.caps, t.item);
  }

  function CapabilitiesOf(pod: Pod): Caps {
    Parse(if CAPABILITIES in pod.annotations then pod.annotations[CAPABILITIES] else "")
  }

  function TagPods(pods: seq<Pod>): seq<Tagged<Pod>> {
    seq(|pods|, i requires 0 <= i < |pods| => Tagged(CapabilitiesOf(pods[i]), pods[i]))
  }

  method NewRunningPodsWrapper(pods: seq<Pod>) returns (groups: seq<Group<Pod>>)
    ensures groups == GroupAll(TagPods(pods))
    ensures Conserves(groups, TagPods(pods))
  {
    hide Conserves, AddTo, Parse;
    groups := [];
    for i := 0 to |pods|
      invariant groups == GroupAll(TagPods(pods[..i]))
    {
      assert pods[..i + 1][i] == pods[i] && pods[..i + 1][..i] == pods[..i];
      var annotation := if CAPABILITIES in pods[i].annotations then pods[i].annotations[CAPABILITIES] else "";
      var caps := GetCapabilitiesMapFromString(annotation);
      groups := AddToGroups(groups, caps, pods[i]);
      assert TagPods(pods[..i + 1])[..i] == TagPods(pods[..i]);
    }
    assert pods[..|pods|] == pods;
    GroupingConserves(TagPods(pods));
  }

  /** No group of pods is ever lost, whatever the pods' annotations are. */
  lemma {:induction false} PodsAlwaysPrintApart(pods: seq<Pod>, input: Caps)
    ensures PrintApart(GroupAll(TagPods(pods)), input)
    ensures Total(MatchMap(GroupAll(TagPods(pods)), input)) == Matching(TagPods(pods), input)
  {
    var groups := GroupAll(TagPods(pods));
    GroupingConserves(TagPods(pods));
    CleanGroupsPrintApart(TagPods(pods), input) by {
      forall i | 0 <= i < |pods| ensures Clean(TagPods(pods)[i].caps) {
        ParseIsClean(if CAPABILITIES in pods[i].annotations then pods[i].annotations[CAPABILITIES] else "");
      }
    }
    CountExactWhenPrintApart(TagPods(pods), input);
  }

  lemma {:induction false} CleanGroupsPrintApart<T>(items: seq<Tagged<T>>, input: Caps)
    requires forall i | 0 <= i < |items| :: Clean(items[i].caps)
    ensures PrintApart(GroupAll(items), input)
  {
    var groups := GroupAll(items);
    GroupingConserves(items);
    forall i | 0 <= i < |groups| ensures Clean(groups[i].caps) {
      SelectedHasCaps(items, groups[i].caps);
    }
    forall i, j | 0 <= i < j < |groups| && Matches(groups[j].caps, input)
      ensures !Answers(groups[i].caps, input, Print(groups[j].caps))
    {
      PrintInjective(groups[i].caps, groups[j].caps);
    }
  }
}
