/** Per-peer admission nested inside the in-flight counter (proxy/peer_admission.go, proxy/peerproxy.go):
    a request is counted from its pick to the end of its handler, and may hold a semaphore slot in between. */
module PeerAdmission {
  import opened PickSpec

  datatype Phase = Queued | Holding | Over  // Over: refused, or served and its slot released

  datatype Request = Request(peer: nat, phase: Phase)

  datatype Op =
    | Dispatch(id: nat, peer: nat)  // a by-name pick or a pinned dispatch: counted in flight
    | Acquire(id: nat)              // takes a slot, at once or after queueing
    | Refuse(id: nat)               // full with no queue, timed out, or the client went away
    | Release(id: nat)              // served: gives the slot back
    | Finish(id: nat)               // the handler returns: no longer in flight

  // What asking a semaphore of `cap` slots answers when `taken` are in use.
  datatype Answer = Passed | Slot | Queue | Refused

  function Ask(cap: int, taken: int, mayQueue: bool): Answer {
    if taken < cap then Slot else if mayQueue then Queue else Refused
  }

  datatype World = World(inFlight: seq<int>, slots: seq<int>, requests: map<nat, Request>)

  predicate Shaped(w: World, peers: nat) {
    |w.inFlight| == |w.slots| == peers && forall id :: id in w.requests ==> w.requests[id].peer < peers
  }

  function Step(cap: int, peers: nat, w: World, op: Op): (w': World)
    requires Shaped(w, peers)
    ensures Shaped(w', peers)
  {
    match op
    case Dispatch(id, p) =>
      if id in w.requests || p >= peers then w
      else w.(inFlight := w.inFlight[p := w.inFlight[p] + 1], requests := w.requests[id := Request(p, Queued)])
    case Acquire(id) =>
      if id !in w.requests || !w.requests[id].phase.Queued?
         || !Ask(cap, w.slots[w.requests[id].peer], true).Slot? then w
      else
        var p := w.requests[id].peer;
        w.(slots := w.slots[p := w.slots[p] + 1], requests := w.requests[id := Request(p, Holding)])
    case Refuse(id) =>
      if id !in w.requests || !w.requests[id].phase.Queued? then w
      else w.(requests := w.requests[id := Request(w.requests[id].peer, Over)])
    case Release(id) =>
      if id !in w.requests || !w.requests[id].phase.Holding? then w
      else
        var p := w.requests[id].peer;
        w.(slots := w.slots[p := w.slots[p] - 1], requests := w.requests[id := Request(p, Over)])
    case Finish(id) =>
      if id !in w.requests || !w.requests[id].phase.Over? then w
      else
        var p := w.requests[id].peer;
        w.(inFlight := w.inFlight[p := w.inFlight[p] - 1], requests := w.requests - {id})
  }

  ghost function At(m: map<nat, Request>, p: nat): set<nat> {
    set id | id in m && m[id].peer == p
  }

  ghost function HoldersAt(m: map<nat, Request>, p: nat): set<nat> {
    set id | id in m && m[id].peer == p && m[id].phase.Holding?
  }

  // The counters are exact: in flight is what is outstanding, slots taken are what is being served.
  ghost predicate Inv(cap: int, peers: nat, w: World) {
    && Shaped(w, peers)
    && (forall p: nat :: p < peers ==> w.inFlight[p] == |At(w.requests, p)|)
    && (forall p: nat :: p < peers ==> w.slots[p] == |HoldersAt(w.requests, p)| <= cap)
  }

  // Moving a request to another phase changes no peer's total, and its own peer's holders by one at most.
  lemma {:induction false} PhaseChange(m: map<nat, Request>, id: nat, phase: Phase, p: nat)
    requires id in m
    ensures At(m[id := m[id].(phase := phase)], p) == At(m, p)
    ensures HoldersAt(m[id := m[id].(phase := phase)], p)
      == if m[id].peer == p && phase.Holding? then HoldersAt(m, p) + {id} else HoldersAt(m, p) - {id}
  {
  }

  lemma {:induction false} Arrival(m: map<nat, Request>, id: nat, p: nat, q: nat)
    requires id !in m
    ensures At(m[id := Request(p, Queued)], q) == if p == q then At(m, q) + {id} else At(m, q)
    ensures HoldersAt(m[id := Request(p, Queued)], q) == HoldersAt(m, q)
  {
  }

  lemma {:induction false} Departure(m: map<nat, Request>, id: nat, p: nat)
    requires id in m
    ensures At(m - {id}, p) == At(m, p) - {id}
    ensures HoldersAt(m - {id}, p) == HoldersAt(m, p) - {id}
  {
  }

  // What each move does to a peer's numbers of requests and of holders.

  lemma {:induction false} ArrivalCounts(m: map<nat, Request>, id: nat, p: nat, q: nat)
    requires id !in m
    ensures var m' := m[id := Request(p, Queued)];
      |At(m', q)| == |At(m, q)| + (if p == q then 1 else 0) && |HoldersAt(m', q)| == |HoldersAt(m, q)|
  {
    Arrival(m, id, p, q);
  }

  lemma {:induction false} GrantCounts(m: map<nat, Request>, id: nat, q: nat)
    requires id in m && m[id].phase.Queued?
    ensures var m' := m[id := Request(m[id].peer, Holding)];
      |At(m', q)| == |At(m, q)| && |HoldersAt(m', q)| == |HoldersAt(m, q)| + if m[id].peer == q then 1 else 0
  {
    PhaseChange(m, id, Holding, q);
  }

  lemma {:induction false} OverCounts(m: map<nat, Request>, id: nat, q: nat)
    requires id in m
    ensures var m' := m[id := Request(m[id].peer, Over)];
      && |At(m', q)| == |At(m, q)|
      && |HoldersAt(m', q)| == |HoldersAt(m, q)| - if m[id].peer == q && m[id].phase.Holding? then 1 else 0
  {
    PhaseChange(m, id, Over, q);
  }

  lemma {:induction false} DepartureCounts(m: map<nat, Request>, id: nat, q: nat)
    requires id in m && m[id].phase.Over?
    ensures |At(m - {id}, q)| == |At(m, q)| - (if m[id].peer == q then 1 else 0)
    ensures |HoldersAt(m - {id}, q)| == |HoldersAt(m, q)|
  {
    Departure(m, id, q);
  }

  // One peer's counters after a step, against that peer's requests.
  lemma {:induction false} CountersStayExact(cap: int, peers: nat, w: World, op: Op, q: nat)
    requires Inv(cap, peers, w) && q < peers
    ensures var w' := Step(cap, peers, w, op);
      w'.inFlight[q] == |At(w'.requests, q)| && w'.slots[q] == |HoldersAt(w'.requests, q)| <= cap
  {
    match op
    case Dispatch(id, p) => if id !in w.requests { ArrivalCounts(w.requests, id, p, q); }
    case Acquire(id) => if id in w.requests && w.requests[id].phase.Queued? { GrantCounts(w.requests, id, q); }
    case Refuse(id) => if id in w.requests { OverCounts(w.requests, id, q); }
    case Release(id) => if id in w.requests { OverCounts(w.requests, id, q); }
    case Finish(id) => if id in w.requests && w.requests[id].phase.Over? { DepartureCounts(w.requests, id, q); }
  }

  lemma {:induction false} StepKeepsInv(cap: int, peers: nat, w: World, op: Op)
    requires Inv(cap, peers, w)
    ensures Inv(cap, peers, Step(cap, peers, w, op))
  {
    forall q: nat | q < peers
      ensures var w' := Step(cap, peers, w, op);
        w'.inFlight[q] == |At(w'.requests, q)| && w'.slots[q] == |HoldersAt(w'.requests, q)| <= cap
    {
      CountersStayExact(cap, peers, w, op, q);
    }
  }

  function Run(cap: int, peers: nat, ops: seq<Op>): (w: World)
    ensures Shaped(w, peers)
  {
    if ops == [] then World(Idle(peers), Idle(peers), map[])
    else Step(cap, peers, Run(cap, peers, ops[..|ops| - 1]), ops[|ops| - 1])
  }

  lemma {:induction false} EveryRunKeepsInv(cap: nat, peers: nat, ops: seq<Op>)
    ensures Inv(cap, peers, Run(cap, peers, ops))
  {
    if ops == [] {
      var none: map<nat, Request> := map[];
      forall p: nat | p < peers
        ensures |At(none, p)| == 0 && |HoldersAt(none, p)| == 0
      {
        assert At(none, p) == {} && HoldersAt(none, p) == {};
      }
    } else {
      EveryRunKeepsInv(cap, peers, ops[..|ops| - 1]);
      StepKeepsInv(cap, peers, Run(cap, peers, ops[..|ops| - 1]), ops[|ops| - 1]);
    }
  }

  lemma {:induction false} SubsetIsSmaller(a: set<nat>, b: set<nat>)
    requires a <= b
    ensures |a| <= |b|
  {
    assert b == a + (b - a);
  }

  // On every reachable state a peer's slot holders are within the cap and within its in-flight count,
  // and that count is exactly its outstanding requests.
  lemma {:induction false} HoldersWithinInFlight(cap: nat, peers: nat, ops: seq<Op>, p: nat)
    requires p < peers
    ensures var w := Run(cap, peers, ops);
      && w.slots[p] == |HoldersAt(w.requests, p)| <= cap
      && w.slots[p] <= w.inFlight[p] == |At(w.requests, p)|
  {
    EveryRunKeepsInv(cap, peers, ops);
    var w := Run(cap, peers, ops);
    SubsetIsSmaller(HoldersAt(w.requests, p), At(w.requests, p));
  }

  // On every run a queued request gets a slot exactly when its peer serves fewer than the cap.
  lemma {:induction false} SlotIffServingBelowCap(cap: nat, peers: nat, ops: seq<Op>, id: nat)
    requires var w := Run(cap, peers, ops); id in w.requests && w.requests[id].phase.Queued?
    ensures var w, w' := Run(cap, peers, ops), Run(cap, peers, ops + [Acquire(id)]);
      && var p := w.requests[id].peer;
      && id in w'.requests && w'.requests[id].peer == p < peers
      && (w'.requests[id].phase.Holding? <==> |HoldersAt(w.requests, p)| < cap)
      && (w'.requests[id].phase.Queued? <==> |HoldersAt(w.requests, p)| == cap)
      && w'.slots[p] == w.slots[p] + if |HoldersAt(w.requests, p)| < cap then 1 else 0
  {
    assert (ops + [Acquire(id)])[..|ops|] == ops;
    EveryRunKeepsInv(cap, peers, ops);
  }

  // Up and down again, in one peer's counter.
  lemma {:induction false} UpAndDown(counts: seq<int>, p: nat)
    requires p < |counts|
    ensures var up := counts[p := counts[p] + 1]; up[p := up[p] - 1] == counts
  {
  }

  lemma {:induction false} InAndOut(m: map<nat, Request>, id: nat, r: Request)
    requires id !in m
    ensures m[id := r] - {id} == m
  {
  }

  // From any state: a request that is served, or refused, and then returns leaves nothing behind.

  lemma {:induction false} ServedLeavesNothing(cap: int, peers: nat, w: World, id: nat, p: nat)
    requires Shaped(w, peers) && id !in w.requests && p < peers && w.slots[p] < cap
    ensures var held := Step(cap, peers, Step(cap, peers, w, Dispatch(id, p)), Acquire(id));
      Step(cap, peers, Step(cap, peers, held, Release(id)), Finish(id)) == w
  {
    UpAndDown(w.inFlight, p);
    UpAndDown(w.slots, p);
    InAndOut(w.requests, id, Request(p, Over));
    var out := w.inFlight[p := w.inFlight[p] + 1];
    var queued := w.(inFlight := out, requests := w.requests[id := Request(p, Queued)]);
    var held := World(out, w.slots[p := w.slots[p] + 1], w.requests[id := Request(p, Holding)]);
    var over := World(out, w.slots, w.requests[id := Request(p, Over)]);
    assert Step(cap, peers, w, Dispatch(id, p)) == queued;
    assert Step(cap, peers, queued, Acquire(id)) == held;
    assert Step(cap, peers, held, Release(id)) == over;
  }

  lemma {:induction false} RefusedLeavesNothing(cap: int, peers: nat, w: World, id: nat, p: nat)
    requires Shaped(w, peers) && id !in w.requests && p < peers
    ensures Step(cap, peers, Step(cap, peers, Step(cap, peers, w, Dispatch(id, p)), Refuse(id)), Finish(id)) == w
  {
    UpAndDown(w.inFlight, p);
    InAndOut(w.requests, id, Request(p, Over));
    var out := w.inFlight[p := w.inFlight[p] + 1];
    var queued := w.(inFlight := out, requests := w.requests[id := Request(p, Queued)]);
    assert Step(cap, peers, w, Dispatch(id, p)) == queued;
    assert Step(cap, peers, queued, Refuse(id)) == w.(inFlight := out, requests := w.requests[id := Request(p, Over)]);
  }

  // The in-flight counts the saturation test reads: those of the model's candidates.
  function LoadsOf(w: World, candidates: seq<nat>): (loads: seq<int>)
    requires forall i :: 0 <= i < |candidates| ==> candidates[i] < |w.inFlight|
    ensures |loads| == |candidates| && forall i :: 0 <= i < |loads| ==> loads[i] == w.inFlight[candidates[i]]
  {
    if candidates == [] then []
    else LoadsOf(w, candidates[..|candidates| - 1]) + [w.inFlight[candidates[|candidates| - 1]]]
  }

  // The test never claims room that is not there: when it answers yes for a candidate, another one really
  // has a free slot.
  lemma {:induction false} SaturatedMeansRoomElsewhere(cap: nat, peers: nat, ops: seq<Op>, candidates: seq<nat>, i: nat)
    requires i < |candidates| && forall j :: 0 <= j < |candidates| ==> candidates[j] < peers
    requires Saturated(LoadsOf(Run(cap, peers, ops), candidates), cap, i)
    ensures exists j :: 0 <= j < |candidates| && candidates[j] != candidates[i]
                        && Run(cap, peers, ops).slots[candidates[j]] < cap
  {
    var loads := LoadsOf(Run(cap, peers, ops), candidates);
    var j :| 0 <= j < |loads| && j != i && loads[j] < cap;
    HoldersWithinInFlight(cap, peers, ops, candidates[j]);
  }

  ghost function NonHolders(w: World, p: nat): set<nat> {
    At(w.requests, p) - HoldersAt(w.requests, p)
  }

  // It may decline affinity needlessly: a request still queued, or already served, counts against its
  // peer while holding no slot.  The two counters differ by exactly those requests.
  lemma {:induction false} OverDeclaresByNonHolders(cap: nat, peers: nat, ops: seq<Op>, p: nat)
    requires p < peers
    ensures var w := Run(cap, peers, ops);
      w.inFlight[p] - w.slots[p] == |NonHolders(w, p)|
  {
    EveryRunKeepsInv(cap, peers, ops);
    var w := Run(cap, peers, ops);
    assert At(w.requests, p) == HoldersAt(w.requests, p) + NonHolders(w, p);
  }

  // Requests still to be let in, and those that are over but whose handler has not returned.
  ghost function QueuedAt(m: map<nat, Request>, p: nat): set<nat> {
    set id | id in m && m[id].peer == p && m[id].phase.Queued?
  }

  ghost function OverAt(m: map<nat, Request>, p: nat): set<nat> {
    set id | id in m && m[id].peer == p && m[id].phase.Over?
  }

  lemma {:induction false} NonHoldersAre(cap: nat, peers: nat, ops: seq<Op>, p: nat)
    requires p < peers
    ensures var w := Run(cap, peers, ops);
      w.inFlight[p] == w.slots[p] + |QueuedAt(w.requests, p)| + |OverAt(w.requests, p)|
  {
    OverDeclaresByNonHolders(cap, peers, ops, p);
    var w := Run(cap, peers, ops);
    assert NonHolders(w, p) == QueuedAt(w.requests, p) + OverAt(w.requests, p);
    assert QueuedAt(w.requests, p) !! OverAt(w.requests, p);
  }

  // A yes is needless, with a slot free at the peer itself, exactly when its queued and finishing requests
  // together outnumber what it has in flight above the cap.
  lemma {:induction false} NeedlesslySaturatedIff(cap: nat, peers: nat, ops: seq<Op>, candidates: seq<nat>, i: nat)
    requires i < |candidates| && forall j :: 0 <= j < |candidates| ==> candidates[j] < peers
    requires Saturated(LoadsOf(Run(cap, peers, ops), candidates), cap, i)
    ensures var w, p := Run(cap, peers, ops), candidates[i];
      w.slots[p] < cap <==> |QueuedAt(w.requests, p)| + |OverAt(w.requests, p)| > w.inFlight[p] - cap
  {
    NonHoldersAre(cap, peers, ops, candidates[i]);
  }

  // Where nobody queues beside a free slot it takes that many handlers that have given their slot back, or
  // never had one, and not yet returned.
  lemma {:induction false} NeedlessOnlyWhileFinishing(cap: nat, peers: nat, ops: seq<Op>, candidates: seq<nat>, i: nat)
    requires i < |candidates| && forall j :: 0 <= j < |candidates| ==> candidates[j] < peers
    requires Saturated(LoadsOf(Run(cap, peers, ops), candidates), cap, i)
    requires var w, p := Run(cap, peers, ops), candidates[i]; w.slots[p] < cap ==> QueuedAt(w.requests, p) == {}
    ensures var w, p := Run(cap, peers, ops), candidates[i];
      w.slots[p] < cap <==> QueuedAt(w.requests, p) == {} && |OverAt(w.requests, p)| > w.inFlight[p] - cap
  {
    NeedlesslySaturatedIff(cap, peers, ops, candidates, i);
  }

  // It does happen: one request dispatched and not yet let in, at a cap of one.
  lemma {:induction false} NeedlessYes()
    ensures var w := Run(1, 2, [Dispatch(0, 0)]);
      Saturated(LoadsOf(w, [0, 1]), 1, 0) && w.slots[0] == 0
  {
    var op := Dispatch(0, 0);
    assert [op][..0] == [];
    assert Idle(2) == [0, 0];
    assert Run(1, 2, []) == World([0, 0], [0, 0], map[]);
    var w := Run(1, 2, [op]);
    assert w == Step(1, 2, World([0, 0], [0, 0], map[]), op);
    assert w.inFlight == [1, 0] && w.slots == [0, 0];
    assert LoadsOf(w, [0, 1])[1] == 0;
  }

  // The semaphores themselves: one counter of taken slots per known peer.
  class Admission {
    const maxInflight: int
    const queueTimeout: int
    var slots: map<string, nat>

    ghost predicate Valid()
      reads this
    {
      forall id :: id in slots ==> slots[id] <= maxInflight
    }

    predicate Enabled() {
      maxInflight > 0
    }

    constructor (maxInflight: int, queueTimeout: int, peerIDs: seq<string>)
      ensures this.maxInflight == maxInflight && this.queueTimeout == queueTimeout && Valid()
      ensures slots == if maxInflight > 0 then map id | id in peerIDs :: 0 else map[]
    {
      this.maxInflight, this.queueTimeout := maxInflight, queueTimeout;
      slots := if maxInflight > 0 then map id | id in peerIDs :: 0 else map[];
    }

    // A first attempt: an unknown peer, or any while admission is off, is let through without a slot.
    method TryAcquire(peerID: string) returns (a: Answer)
      requires Valid()
      modifies this
      ensures Valid()
      ensures a == if !Enabled() || peerID !in old(slots) then Passed
                   else Ask(maxInflight, old(slots)[peerID], queueTimeout > 0)
      ensures a.Passed? <==> maxInflight <= 0 || peerID !in old(slots)
      ensures a.Slot? <==> maxInflight > 0 && peerID in old(slots) && old(slots)[peerID] < maxInflight
      ensures a.Queue? <==> !a.Passed? && !a.Slot? && queueTimeout > 0
      ensures slots == if a.Slot? then old(slots)[peerID := old(slots)[peerID] + 1] else old(slots)
    {
      if !Enabled() || peerID !in slots {
        return Passed;
      }
      if slots[peerID] < maxInflight {
        slots := slots[peerID := slots[peerID] + 1];
        return Slot;
      }
      return if queueTimeout <= 0 then Refused else Queue;
    }

    // A queued request wakes: `ended` says that its timer fired or its client went away, `slotFirst` which
    // of the two it sees when a slot is free as well.
    method Wake(peerID: string, ended: bool, slotFirst: bool) returns (a: Answer)
      requires Valid() && peerID in slots
      modifies this
      ensures Valid()
      ensures a.Slot? <==> old(slots)[peerID] < maxInflight && (!ended || slotFirst)
      ensures a.Refused? <==> ended && !a.Slot?
      ensures a.Slot? || a.Refused? || a.Queue?
      ensures slots == if a.Slot? then old(slots)[peerID := old(slots)[peerID] + 1] else old(slots)
    {
      if slots[peerID] < maxInflight && (slotFirst || !ended) {
        slots := slots[peerID := slots[peerID] + 1];
        return Slot;
      }
      return if ended then Refused else Queue;
    }

    method Release(peerID: string)
      requires Valid() && peerID in slots && slots[peerID] > 0
      modifies this
      ensures Valid() && slots == old(slots)[peerID := old(slots)[peerID] - 1]
    {
      slots := slots[peerID := slots[peerID] - 1];
    }
  }
}
