/** Choosing and reserving a peer for a model (proxy/peerproxy.go): least rank, with an affinity discount
    that yields to residency, admission and load. */
module PickSpec {
  // Peers are positions in the model's candidate list; `loads` are their in-flight counts and `biases`
  // the loaded-state biases read before the lock.

  function Rank(loads: seq<int>, biases: seq<int>, i: nat): int
    requires i < |loads| == |biases|
  {
    loads[i] * 2 + biases[i]
  }

  // The first position of least rank among the first n.
  function Best(loads: seq<int>, biases: seq<int>, n: nat): (b: nat)
    requires 0 < n <= |loads| == |biases|
    ensures b < n
    ensures forall i :: 0 <= i < n ==> Rank(loads, biases, b) <= Rank(loads, biases, i)
    ensures forall i :: 0 <= i < b ==> Rank(loads, biases, b) < Rank(loads, biases, i)
  {
    if n == 1 then 0
    else
      var b := Best(loads, biases, n - 1);
      if Rank(loads, biases, n - 1) < Rank(loads, biases, b) then n - 1 else b
  }

  // Affinity would hand the request to a peer at its admission cap while some other has room.
  predicate Saturated(loads: seq<int>, cap: int, i: nat)
    requires i < |loads|
  {
    cap > 0 && loads[i] >= cap && exists j :: 0 <= j < |loads| && j != i && loads[j] < cap
  }

  datatype Affinity = Disabled | NoKey | Bound(peer: nat)

  datatype Why = OnlyCandidate | AffinityOff | WithoutKey | Hit | SpillCold | SpillCapped | SpillBusy

  datatype Choice = Choice(peer: nat, why: Why)

  ghost predicate ValidCase(loads: seq<int>, biases: seq<int>, affinity: Affinity) {
    0 < |loads| == |biases| && (affinity.Bound? ==> affinity.peer < |loads|)
  }

  function Decide(loads: seq<int>, biases: seq<int>, affinity: Affinity, bonus: int, cap: int): Choice
    requires 0 < |loads| == |biases| && (affinity.Bound? ==> affinity.peer < |loads|)
  {
    if |loads| == 1 then Choice(0, OnlyCandidate)
    else
      var best := Best(loads, biases, |loads|);
      match affinity
      case Disabled => Choice(best, AffinityOff)
      case NoKey => Choice(best, WithoutKey)
      case Bound(a) =>
        if biases[a] != 0 then Choice(best, SpillCold)
        else if Saturated(loads, cap, a) then Choice(best, SpillCapped)
        else if Rank(loads, biases, a) - bonus <= Rank(loads, biases, best) then Choice(a, Hit)
        else Choice(best, SpillBusy)
  }

  // The bound affinity promises on every pick: the chosen peer's ordinary rank is within the bonus of
  // the best, and anything but a hit takes the best itself; a hit goes to a bound peer that holds the
  // model and is not refused by admission while another has room.
  lemma {:induction false} ChosenRankIsBounded(loads: seq<int>, biases: seq<int>, affinity: Affinity,
      bonus: nat, cap: int, i: nat)
    requires ValidCase(loads, biases, affinity) && i < |loads|
    ensures var c := Decide(loads, biases, affinity, bonus, cap);
      && c.peer < |loads|
      && Rank(loads, biases, c.peer) <= Rank(loads, biases, i) + bonus
      && (c.why != Hit ==>
            c.peer == Best(loads, biases, |loads|) && Rank(loads, biases, c.peer) <= Rank(loads, biases, i))
      && (c.why == Hit ==> affinity == Bound(c.peer) && biases[c.peer] == 0 && !Saturated(loads, cap, c.peer))
  {
  }

  // The bound peer is at its admission cap while some other candidate has room.
  ghost predicate Capped(loads: seq<int>, cap: int, a: nat)
    requires a < |loads|
  {
    cap > 0 && loads[a] >= cap && exists j :: 0 <= j < |loads| && loads[j] < cap
  }

  // Some candidate's weighted load undercuts the bound peer's by more than the bonus.
  ghost predicate Undercut(loads: seq<int>, biases: seq<int>, a: nat, bonus: int)
    requires a < |loads| == |biases|
  {
    exists i :: 0 <= i < |loads| && loads[i] * 2 + biases[i] < loads[a] * 2 + biases[a] - bonus
  }

  // When each reason is the one to give.
  ghost predicate Applies(why: Why, loads: seq<int>, biases: seq<int>, affinity: Affinity, bonus: int, cap: int)
    requires ValidCase(loads, biases, affinity)
  {
    if |loads| == 1 || !affinity.Bound?
    then why == if |loads| == 1 then OnlyCandidate else if affinity.Disabled? then AffinityOff else WithoutKey
    else
      var a := affinity.peer;
      match why
      case SpillCold => biases[a] != 0
      case SpillCapped => biases[a] == 0 && Capped(loads, cap, a)
      case SpillBusy => biases[a] == 0 && !Capped(loads, cap, a) && Undercut(loads, biases, a, bonus)
      case Hit => biases[a] == 0 && !Capped(loads, cap, a) && !Undercut(loads, biases, a, bonus)
      case _ => false
  }

  // The first of the candidates with the least weighted load.
  ghost predicate FirstLeast(loads: seq<int>, biases: seq<int>, p: nat)
    requires |loads| == |biases|
  {
    && p < |loads|
    && (forall i :: 0 <= i < |loads| ==> loads[p] * 2 + biases[p] <= loads[i] * 2 + biases[i])
    && (forall i :: 0 <= i < p ==> loads[p] * 2 + biases[p] < loads[i] * 2 + biases[i])
  }

  lemma {:induction false} CappedIsSaturated(loads: seq<int>, cap: int, a: nat)
    requires a < |loads|
    ensures Capped(loads, cap, a) <==> Saturated(loads, cap, a)
  {
    if Capped(loads, cap, a) {
      var j :| 0 <= j < |loads| && loads[j] < cap;
      assert j != a;
    }
  }

  lemma {:induction false} BestIsFirstLeast(loads: seq<int>, biases: seq<int>)
    requires 0 < |loads| == |biases|
    ensures FirstLeast(loads, biases, Best(loads, biases, |loads|))
  {
    var best := Best(loads, biases, |loads|);
    forall i | 0 <= i < |loads|
      ensures loads[best] * 2 + biases[best] <= loads[i] * 2 + biases[i]
      ensures i < best ==> loads[best] * 2 + biases[best] < loads[i] * 2 + biases[i]
    {
      assert Rank(loads, biases, best) <= Rank(loads, biases, i);
      assert i < best ==> Rank(loads, biases, best) < Rank(loads, biases, i);
    }
  }

  lemma {:induction false} UndercutIff(loads: seq<int>, biases: seq<int>, a: nat, bonus: int)
    requires a < |loads| == |biases|
    ensures Undercut(loads, biases, a, bonus)
      <==> Rank(loads, biases, a) - bonus > Rank(loads, biases, Best(loads, biases, |loads|))
  {
    var best := Best(loads, biases, |loads|);
    BestIsFirstLeast(loads, biases);
    if Undercut(loads, biases, a, bonus) {
      var i :| 0 <= i < |loads| && loads[i] * 2 + biases[i] < loads[a] * 2 + biases[a] - bonus;
      assert loads[best] * 2 + biases[best] <= loads[i] * 2 + biases[i];
    }
  }

  // A pick gives a reason exactly when it applies; the bound peer is taken on a hit alone, and otherwise
  // the first of the least loaded.
  lemma {:induction false} ReasonIff(loads: seq<int>, biases: seq<int>, affinity: Affinity, bonus: int, cap: int,
      why: Why)
    requires ValidCase(loads, biases, affinity)
    ensures var c := Decide(loads, biases, affinity, bonus, cap);
      && (c.why == why <==> Applies(why, loads, biases, affinity, bonus, cap))
      && (c.why == Hit ==> c.peer == affinity.peer)
      && (c.why != Hit ==> FirstLeast(loads, biases, c.peer))
  {
    BestIsFirstLeast(loads, biases);
    if affinity.Bound? {
      CappedIsSaturated(loads, cap, affinity.peer);
      UndercutIff(loads, biases, affinity.peer, bonus);
    }
  }

  // ---- runs of picks from idle, with no completion in between ----

  datatype Stats = Stats(hits: nat, spillsCold: nat, spillsCapped: nat, spillsBusy: nat, noKey: nat) {
    function Total(): nat {
      hits + spillsCold + spillsCapped + spillsBusy + noKey
    }
  }

  function Counted(s: Stats, why: Why): Stats {
    match why
    case Hit => s.(hits := s.hits + 1)
    case SpillCold => s.(spillsCold := s.spillsCold + 1)
    case SpillCapped => s.(spillsCapped := s.spillsCapped + 1)
    case SpillBusy => s.(spillsBusy := s.spillsBusy + 1)
    case WithoutKey => s.(noKey := s.noKey + 1)
    case _ => s
  }

  datatype Fleet = Fleet(loads: seq<int>, stats: Stats)

  function Idle(n: nat): (loads: seq<int>)
    ensures |loads| == n && forall i :: 0 <= i < n ==> loads[i] == 0
  {
    if n == 0 then [] else Idle(n - 1) + [0]
  }

  // `keys` says, pick by pick, which peer the request's conversation is bound to.
  ghost predicate ValidRun(biases: seq<int>, keys: seq<Affinity>) {
    |biases| > 0 && forall k :: 0 <= k < |keys| && keys[k].Bound? ==> keys[k].peer < |biases|
  }

  function Run(biases: seq<int>, keys: seq<Affinity>, bonus: nat, cap: int): (f: Fleet)
    requires |biases| > 0 && forall k :: 0 <= k < |keys| && keys[k].Bound? ==> keys[k].peer < |biases|
    ensures |f.loads| == |biases|
  {
    if keys == [] then Fleet(Idle(|biases|), Stats(0, 0, 0, 0, 0))
    else
      var f := Run(biases, keys[..|keys| - 1], bonus, cap);
      var c := Decide(f.loads, biases, keys[|keys| - 1], bonus, cap);
      Fleet(f.loads[c.peer := f.loads[c.peer] + 1], Counted(f.stats, c.why))
  }

  ghost predicate Balanced(loads: seq<int>, biases: seq<int>, bonus: nat)
    requires |loads| == |biases|
  {
    && (forall i :: 0 <= i < |loads| ==> loads[i] >= 0)
    && forall i, j :: 0 <= i < |loads| && 0 <= j < |loads| && loads[i] > 0 ==>
         Rank(loads, biases, i) <= Rank(loads, biases, j) + bonus + 2
  }

  lemma {:induction false} PickKeepsBalance(loads: seq<int>, biases: seq<int>, affinity: Affinity, bonus: nat, cap: int)
    requires ValidCase(loads, biases, affinity) && Balanced(loads, biases, bonus)
    ensures var p := Decide(loads, biases, affinity, bonus, cap).peer;
      Balanced(loads[p := loads[p] + 1], biases, bonus)
  {
    var p := Decide(loads, biases, affinity, bonus, cap).peer;
    var loads' := loads[p := loads[p] + 1];
    forall i, j | 0 <= i < |loads| && 0 <= j < |loads| && loads'[i] > 0
      ensures Rank(loads', biases, i) <= Rank(loads', biases, j) + bonus + 2
    {
      ChosenRankIsBounded(loads, biases, affinity, bonus, cap, j);
      if i != p {
        assert Rank(loads, biases, i) <= Rank(loads, biases, j) + bonus + 2;
      }
    }
  }

  // One conversation cannot park the fleet: after any run of picks, for any mix of keys and any fixed
  // biases, every peer ever picked ranks within bonus + 2 of every other.
  lemma {:induction false} RunsStayBalanced(biases: seq<int>, keys: seq<Affinity>, bonus: nat, cap: int)
    requires ValidRun(biases, keys)
    ensures Balanced(Run(biases, keys, bonus, cap).loads, biases, bonus)
  {
    if keys != [] {
      RunsStayBalanced(biases, keys[..|keys| - 1], bonus, cap);
      PickKeepsBalance(Run(biases, keys[..|keys| - 1], bonus, cap).loads, biases, keys[|keys| - 1], bonus, cap);
    }
  }

  // On an all-warm fleet the in-flight counts never spread further than half the bonus, plus one.
  lemma {:induction false} WarmFleetSpread(biases: seq<int>, keys: seq<Affinity>, bonus: nat, cap: int, i: nat, j: nat)
    requires ValidRun(biases, keys) && i < |biases| && j < |biases|
    requires forall k :: 0 <= k < |biases| ==> biases[k] == 0
    ensures Run(biases, keys, bonus, cap).loads[i] <= Run(biases, keys, bonus, cap).loads[j] + bonus / 2 + 1
  {
    RunsStayBalanced(biases, keys, bonus, cap);
    var loads := Run(biases, keys, bonus, cap).loads;
    if loads[i] > 0 {
      assert Rank(loads, biases, i) <= Rank(loads, biases, j) + bonus + 2;
    }
  }

  lemma {:induction false} PickIsCounted(s: Stats, loads: seq<int>, biases: seq<int>, affinity: Affinity,
      bonus: int, cap: int)
    requires ValidCase(loads, biases, affinity) && |loads| > 1 && !affinity.Disabled?
    ensures Counted(s, Decide(loads, biases, affinity, bonus, cap).why).Total() == s.Total() + 1
  {
  }

  // With affinity on and several candidates, every pick is counted once.
  lemma {:induction false} EveryPickIsCounted(biases: seq<int>, keys: seq<Affinity>, bonus: nat, cap: int)
    requires ValidRun(biases, keys) && |biases| > 1
    requires forall k :: 0 <= k < |keys| ==> !keys[k].Disabled?
    ensures Run(biases, keys, bonus, cap).stats.Total() == |keys|
  {
    if keys != [] {
      EveryPickIsCounted(biases, keys[..|keys| - 1], bonus, cap);
      var f := Run(biases, keys[..|keys| - 1], bonus, cap);
      PickIsCounted(f.stats, f.loads, biases, keys[|keys| - 1], bonus, cap);
    }
  }

  // How many picks of a run a reason applies to.
  ghost function Tally(why: Why, biases: seq<int>, keys: seq<Affinity>, bonus: nat, cap: int): nat
    requires ValidRun(biases, keys)
  {
    if keys == [] then 0
    else
      var init := keys[..|keys| - 1];
      var loads := Run(biases, init, bonus, cap).loads;
      Tally(why, biases, init, bonus, cap) + if Applies(why, loads, biases, keys[|keys| - 1], bonus, cap) then 1 else 0
  }

  // On every run each counter is the number of picks its own reason applied to.
  lemma {:induction false} CountersAreTallies(biases: seq<int>, keys: seq<Affinity>, bonus: nat, cap: int)
    requires ValidRun(biases, keys)
    ensures var s := Run(biases, keys, bonus, cap).stats;
      && s.hits == Tally(Hit, biases, keys, bonus, cap)
      && s.spillsCold == Tally(SpillCold, biases, keys, bonus, cap)
      && s.spillsCapped == Tally(SpillCapped, biases, keys, bonus, cap)
      && s.spillsBusy == Tally(SpillBusy, biases, keys, bonus, cap)
      && s.noKey == Tally(WithoutKey, biases, keys, bonus, cap)
  {
    if keys != [] {
      var init, last := keys[..|keys| - 1], keys[|keys| - 1];
      CountersAreTallies(biases, init, bonus, cap);
      var loads := Run(biases, init, bonus, cap).loads;
      ReasonIff(loads, biases, last, bonus, cap, Hit);
      ReasonIff(loads, biases, last, bonus, cap, SpillCold);
      ReasonIff(loads, biases, last, bonus, cap, SpillCapped);
      ReasonIff(loads, biases, last, bonus, cap, SpillBusy);
      ReasonIff(loads, biases, last, bonus, cap, WithoutKey);
    }
  }

  function Turns(k: nat): (keys: seq<Affinity>)
    ensures |keys| == k && forall i :: 0 <= i < k ==> keys[i] == Bound(0)
  {
    if k == 0 then [] else Turns(k - 1) + [Bound(0)]
  }

  lemma {:induction false} TurnIsHit(bonus: nat, load: nat)
    requires load <= bonus / 2
    ensures Decide([load, 0], [0, 0], Bound(0), bonus, 0) == Choice(0, Hit)
  {
    assert !Saturated([load, 0], 0, 0);
  }

  // Turns of one conversation on two idle warm peers stay on its peer while the discount lasts.
  lemma {:induction false} TurnsStay(bonus: nat, k: nat)
    requires k <= bonus / 2 + 1
    ensures Run([0, 0], Turns(k), bonus, 0).loads == [k, 0]
  {
    if k > 0 {
      TurnsStay(bonus, k - 1);
      TurnIsHit(bonus, k - 1);
      assert Turns(k)[..k - 1] == Turns(k - 1);
    } else {
      assert Idle(2) == [0, 0];
    }
  }

  // The bound is reached for every bonus: half of it, plus one, apart.
  lemma {:induction false} SpreadIsReached(bonus: nat)
    ensures var loads := Run([0, 0], Turns(bonus / 2 + 1), bonus, 0).loads;
      |loads| == 2 && loads[0] == loads[1] + bonus / 2 + 1
  {
    TurnsStay(bonus, bonus / 2 + 1);
  }
}

module PeerPicker {
  import opened PeerAffinity
  import opened PickSpec

  // Peers are identified by their id.
  predicate OneMemberPerId(candidates: seq<Member>) {
    forall i, j :: 0 <= i < |candidates| && 0 <= j < |candidates| && candidates[i].id == candidates[j].id ==>
      candidates[i] == candidates[j]
  }

  ghost function Loads(candidates: seq<Member>): (loads: seq<int>)
    reads candidates
    ensures |loads| == |candidates| && forall i :: 0 <= i < |loads| ==> loads[i] == candidates[i].inFlight
  {
    if candidates == [] then [] else Loads(candidates[..|candidates| - 1]) + [candidates[|candidates| - 1].inFlight]
  }

  // Which candidate the request's conversation is bound to.
  ghost predicate IsAffinity(a: Affinity, enabled: bool, score: Score, key: string, candidates: seq<Member>)
    requires candidates != []
  {
    match a
    case Disabled => !enabled
    case NoKey => enabled && key == ""
    case Bound(p) =>
      && enabled && key != "" && p < |candidates|
      && candidates[p].id == Affine(score, key, IdsOf(candidates))
      && forall i :: 0 <= i < p ==> candidates[i] != candidates[p]
  }

  class PeerProxy {
    const affinityEnabled: bool
    const bonus: int
    const cap: int  // admission's in-flight cap per peer; not positive while admission is off
    var stats: Stats

    constructor (affinityEnabled: bool, bonus: int, cap: int)
      ensures this.affinityEnabled == affinityEnabled && this.bonus == bonus && this.cap == cap
      ensures stats == Stats(0, 0, 0, 0, 0)
    {
      this.affinityEnabled, this.bonus, this.cap, stats := affinityEnabled, bonus, cap, Stats(0, 0, 0, 0, 0);
    }

    method AdmissionSaturated(candidates: seq<Member>, p: nat) returns (saturated: bool)
      requires p < |candidates|
      ensures saturated <==> cap > 0 && candidates[p].inFlight >= cap
                             && exists j :: 0 <= j < |candidates| && candidates[j].inFlight < cap
      ensures saturated == Saturated(Loads(candidates), cap, p)
    {
      ghost var loads := Loads(candidates);
      if cap <= 0 || candidates[p].inFlight < cap {
        return false;
      }
      for j := 0 to |candidates|
        invariant forall i :: 0 <= i < j && i != p ==> loads[i] >= cap
      {
        if candidates[j] != candidates[p] && candidates[j].inFlight < cap {
          assert loads[j] < cap;
          return true;
        }
      }
      return false;
    }

    method LeastRanked(candidates: seq<Member>, biases: seq<int>) returns (best: nat)
      requires 0 < |candidates| == |biases|
      ensures best == Best(Loads(candidates), biases, |candidates|)
      ensures FirstLeast(Loads(candidates), biases, best)
    {
      ghost var loads := Loads(candidates);
      best := 0;
      var bestKey := candidates[0].inFlight * 2 + biases[0];
      for i := 1 to |candidates|
        invariant best == Best(loads, biases, i) && bestKey == Rank(loads, biases, best)
      {
        var key := candidates[i].inFlight * 2 + biases[i];
        if key < bestKey {
          best, bestKey := i, key;
        }
      }
      BestIsFirstLeast(loads, biases);
    }

    method FindAffinity(score: Score, key: string, candidates: seq<Member>) returns (a: Affinity)
      requires candidates != [] && OneMemberPerId(candidates)
      ensures IsAffinity(a, affinityEnabled, score, key, candidates)
    {
      if !affinityEnabled {
        return Disabled;
      }
      var affine := AffinePeer(score, key, candidates);
      if affine == null {
        return NoKey;
      }
      var i: nat := 0;
      while candidates[i] != affine
        invariant i < |candidates| && affine !in candidates[..i]
        decreases |candidates| - i
      {
        i := i + 1;
      }
      return Bound(i);
    }

    // The switch under the lock: the least-ranked peer, unless the bound one is worth its discount.
    method Select(candidates: seq<Member>, biases: seq<int>, affinity: Affinity) returns (p: nat, why: Why)
      requires 1 < |candidates| == |biases| && (affinity.Bound? ==> affinity.peer < |candidates|)
      ensures Choice(p, why) == Decide(Loads(candidates), biases, affinity, bonus, cap)
      ensures Applies(why, Loads(candidates), biases, affinity, bonus, cap)
      ensures if why == Hit then p == affinity.peer else FirstLeast(Loads(candidates), biases, p)
    {
      ghost var loads := Loads(candidates);
      ReasonIff(loads, biases, affinity, bonus, cap, Decide(loads, biases, affinity, bonus, cap).why);
      var best := LeastRanked(candidates, biases);
      match affinity
      case Disabled => return best, AffinityOff;
      case NoKey => return best, WithoutKey;
      case Bound(i) =>
        var saturated := AdmissionSaturated(candidates, i);
        if biases[i] != 0 {
          return best, SpillCold;
        } else if saturated {
          return best, SpillCapped;
        } else if candidates[i].inFlight * 2 + biases[i] - bonus <= candidates[best].inFlight * 2 + biases[best] {
          return i, Hit;
        } else {
          return best, SpillBusy;
        }
    }

    // One more for the reason given, and no other counter moves.
    twostate predicate Counts(why: Why)
      reads this
    {
      && stats.hits == old(stats).hits + (if why == Hit then 1 else 0)
      && stats.spillsCold == old(stats).spillsCold + (if why == SpillCold then 1 else 0)
      && stats.spillsCapped == old(stats).spillsCapped + (if why == SpillCapped then 1 else 0)
      && stats.spillsBusy == old(stats).spillsBusy + (if why == SpillBusy then 1 else 0)
      && stats.noKey == old(stats).noKey + (if why == WithoutKey then 1 else 0)
    }

    // The pick before the reservation.  The ghost results name the binding it saw and its reason.
    method Choose(score: Score, key: string, candidates: seq<Member>, biases: seq<int>)
      returns (p: nat, ghost a: Affinity, ghost why: Why)
      requires 0 < |candidates| == |biases| && OneMemberPerId(candidates)
      modifies this`stats
      ensures IsAffinity(a, affinityEnabled, score, key, candidates)
      ensures ValidCase(Loads(candidates), biases, a)
      ensures Choice(p, why) == Decide(Loads(candidates), biases, a, bonus, cap)
      ensures Applies(why, Loads(candidates), biases, a, bonus, cap)
      ensures if why == Hit then p == a.peer else FirstLeast(Loads(candidates), biases, p)
      ensures stats == Counted(old(stats), why) && Counts(why)
    {
      var affinity := FindAffinity(score, key, candidates);
      a, p, why := affinity, 0, OnlyCandidate;
      if |candidates| > 1 {
        var w;
        p, w := Select(candidates, biases, affinity);
        why := w;
        stats := Counted(stats, w);
      }
    }

    // Picks a peer among the model's candidates and reserves it.
    method Pick(score: Score, key: string, candidates: seq<Member>, biases: seq<int>)
      returns (chosen: Member?, ghost a: Affinity, ghost why: Why, ghost p: nat)
      requires |candidates| == |biases| && OneMemberPerId(candidates)
      modifies this`stats, candidates
      ensures candidates == [] ==> chosen == null && stats == old(stats)
      ensures candidates != [] ==>
                && IsAffinity(a, affinityEnabled, score, key, candidates)
                && ValidCase(old(Loads(candidates)), biases, a)
                && Choice(p, why) == Decide(old(Loads(candidates)), biases, a, bonus, cap)
                && p < |candidates| && chosen == candidates[p]
                && chosen.inFlight == old(chosen.inFlight) + 1
      ensures candidates != [] ==>
                && Applies(why, old(Loads(candidates)), biases, a, bonus, cap)
                && (if why == Hit then p == a.peer else FirstLeast(old(Loads(candidates)), biases, p))
                && stats == Counted(old(stats), why) && Counts(why)
      ensures forall m :: m in candidates && m != chosen ==> m.inFlight == old(m.inFlight)
    {
      if candidates == [] {
        return null, Disabled, OnlyCandidate, 0;
      }
      var i;
      i, a, why := Choose(score, key, candidates, biases);
      chosen, p := candidates[i], i;
      chosen.inFlight := chosen.inFlight + 1;
    }
  }
}
