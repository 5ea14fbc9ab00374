/**
 The memory of pods that could not be found: a promise to a missing pod is only given up once the
 pod has been looked up in vain for more than GRACE.
 */
module Disappeared {
  import opened Clock

  const GRACE: Time := 5 * SECOND
  const RETENTION: Time := 60 * SECOND

  // First miss of every pod that is remembered.
  type Misses = map<string, Time>

  function Note(misses: Misses, pod: string, at: Time): Misses {
    if pod in misses then misses else misses[pod := at]
  }

  function Sweep(misses: Misses, at: Time): Misses {
    map p | p in misses && at - misses[p] <= RETENTION :: misses[p]
  }

  // The clock is read when the miss is noted, when its age is computed, and during the sweep.
  datatype Look = Look(pod: string, noted: Time, asked: Time, swept: Time)

  predicate Ordered(look: Look) {
    look.noted <= look.asked <= look.swept
  }

  predicate Verdict(misses: Misses, look: Look) {
    look.asked - Note(misses, look.pod, look.noted)[look.pod] > GRACE
  }

  function After(misses: Misses, look: Look): Misses {
    Sweep(Note(misses, look.pod, look.noted), look.swept)
  }

  class DisappearedPods {
    var misses: Misses
    ghost var looks: seq<Look>

    ghost predicate Valid()
      reads this
    {
      && (forall i | 0 <= i < |looks| :: Ordered(looks[i]))
      && (forall i, j | 0 <= i < j < |looks| :: looks[i].swept <= looks[j].noted)
      && misses == Remembered(looks)
    }

    constructor ()
      ensures Valid() && looks == []
    {
      misses, looks := map[], [];
    }

    // The garbage collection at the end of every look-up: the map is visited in any order.
    method ForgetOld(at: Time)
      modifies this`misses
      ensures misses == Sweep(old(misses), at)
    {
      ghost var known := misses;
      var pending := misses.Keys;
      while pending != {}
        invariant pending <= known.Keys
        invariant misses == map p | p in known && (p in pending || at - known[p] <= RETENTION) :: known[p]
        decreases |pending|
      {
        var p :| p in pending;
        if at - misses[p] > RETENTION {
          misses := misses - {p};
        }
        pending := pending - {p};
      }
    }

    method HasPodPermanentlyDisappeared(pod: string, noted: Time, asked: Time, swept: Time) returns (gone: bool)
      requires Valid()
      requires noted <= asked <= swept
      requires forall i | 0 <= i < |looks| :: looks[i].swept <= noted
      modifies this
      ensures Valid() && looks == old(looks) + [Look(pod, noted, asked, swept)]
      ensures gone == Verdict(old(misses), Look(pod, noted, asked, swept))
      ensures misses == After(old(misses), Look(pod, noted, asked, swept))
      ensures forall p | p in misses :: swept - misses[p] <= 60 * SECOND
    {
      if pod !in misses {
        misses := misses[pod := noted];
      }
      gone := asked - misses[pod] > GRACE;
      ForgetOld(swept);
      looks := looks + [Look(pod, noted, asked, swept)];
      assert looks[..|looks| - 1] == old(looks);
    }
  }

  /** The memory after a whole history of look-ups. */
  ghost function Remembered(looks: seq<Look>): Misses {
    if looks == [] then map[] else After(Remembered(looks[..|looks| - 1]), looks[|looks| - 1])
  }

  ghost predicate History(looks: seq<Look>) {
    && (forall i | 0 <= i < |looks| :: Ordered(looks[i]))
    && (forall i, j | 0 <= i < j < |looks| :: looks[i].swept <= looks[j].noted)
  }

  /** Whatever is remembered was the instant of an actual look-up of that pod. */
  lemma {:induction false} RememberedWasLookedUp(looks: seq<Look>, pod: string)
    requires pod in Remembered(looks)
    ensures exists i | 0 <= i < |looks| :: looks[i].pod == pod && looks[i].noted == Remembered(looks)[pod]
  {
    var n := |looks| - 1;
    var before := looks[..n];
    if pod in Remembered(before) {
      RememberedWasLookedUp(before, pod);
      var i :| 0 <= i < |before| && before[i].pod == pod && before[i].noted == Remembered(before)[pod];
      assert looks[i] == before[i];
    } else {
      assert looks[n].pod == pod;
    }
  }

  /** A pod is declared gone only if it was already missed, or this very call began, more than 5 s ago. */
  lemma {:induction false} GoneWasMissedLongAgo(looks: seq<Look>, look: Look)
    requires Verdict(Remembered(looks), look)
    ensures || look.asked - look.noted > 5 * SECOND
            || exists i | 0 <= i < |looks| :: looks[i].pod == look.pod && look.asked - looks[i].noted > 5 * SECOND
  {
    if look.pod in Remembered(looks) {
      RememberedWasLookedUp(looks, look.pod);
    }
  }

  // A miss stays remembered while no sweep happens later than RETENTION after it.
  lemma {:induction false} MissIsKept(looks: seq<Look>, k: nat, pod: string)
    requires History(looks) && k < |looks|
    requires looks[k].pod == pod && pod !in Remembered(looks[..k])
    requires forall i | 0 <= i < |looks| :: looks[i].swept <= looks[k].noted + RETENTION
    ensures pod in Remembered(looks) && Remembered(looks)[pod] == looks[k].noted
  {
    hide After;
    var n := |looks| - 1;
    if k < n {
      var before := looks[..n];
      assert before[..k] == looks[..k] && before[k] == looks[k];
      assert forall i | 0 <= i < |before| :: before[i] == looks[i];
      MissIsKept(before, k, pod);
      KeptByLook(Remembered(before), looks[n], pod);
    } else {
      NotedByLook(Remembered(looks[..k]), looks[k]);
    }
  }

  lemma {:induction false} KeptByLook(misses: Misses, look: Look, pod: string)
    requires pod in misses && look.swept - misses[pod] <= RETENTION
    ensures pod in After(misses, look) && After(misses, look)[pod] == misses[pod]
  {
  }

  lemma {:induction false} NotedByLook(misses: Misses, look: Look)
    requires look.pod !in misses && look.swept - look.noted <= RETENTION
    ensures look.pod in After(misses, look) && After(misses, look)[look.pod] == look.noted
  {
  }

  /** So until 60 s after the first miss, a later look-up declares the pod gone exactly if it asks more than 5 s after it. */
  lemma {:induction false} SecondLookDeclaresGone(looks: seq<Look>, k: nat, look: Look)
    requires History(looks) && k < |looks|
    requires looks[k].pod == look.pod && look.pod !in Remembered(looks[..k])
    requires forall i | 0 <= i < |looks| :: looks[i].swept <= looks[k].noted + 60 * SECOND
    ensures Verdict(Remembered(looks), look) <==> look.asked > looks[k].noted + 5 * SECOND
  {
    MissIsKept(looks, k, look.pod);
  }
}
