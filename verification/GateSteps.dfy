/** The gate's own operations take the steps of GateRuns: what a run proves of every account holds of the
    ledger the gate works on. */
module GateSteps {
  import opened Basics
  import opened Pricing
  import opened LedgerSpec
  import opened CreditLedger
  import opened GateSpec
  import opened GateRuns
  import opened CreditGate

  // Every account of the ledger reads as it does in the state of a run.
  ghost predicate Mirrors(ledger: Ledger, s: State)
    reads ledger, ledger.repr
  {
    ledger.Valid() && forall key :: ledger.At(key) == s.At(key)
  }

  // The reservation behind a held request of a run.
  ghost predicate Backs(rsv: CreditReservation, ledger: Ledger, r: GateRuns.Request)
    reads if rsv.inner == null then {} else {rsv.inner}
  {
    && r.Held? && rsv.Holds() && rsv.inner.ledger == ledger && !rsv.inner.done
    && rsv.inner.key == r.key && rsv.inner.cost == r.hold
    && rsv.model == r.ask.model && rsv.reservedCost == r.ask.reservedCost
  }

  // What an arrival at a price makes of the accounts and of its own request.
  ghost predicate Arrives(s: State, s': State, id: nat, key: Key, ask: Ask, price: Option<int>) {
    && id in s'.requests
    && (forall other :: other != key ==> s'.At(other) == s.At(other))
    && if price.None? || !Covers(s.At(key), price.value)
       then s'.requests[id] == Turned(key) && s'.At(key) == s.At(key)
       else
         && s'.requests[id] == Held(key, AtLeastZero(price.value), ask)
         && s'.At(key) == Reserved(s.At(key), price.value)
  }

  lemma {:induction false} TurnedAway(s: State, id: nat, key: Key, ask: Ask, price: Option<int>)
    requires price.None? || !Covers(s.At(key), price.value)
    ensures Arrives(s, s.(requests := s.requests[id := Turned(key)]), id, key, ask, price)
  {
  }

  lemma {:induction false} LetIn(s: State, id: nat, key: Key, ask: Ask)
    requires Covers(s.At(key), ask.reservedCost)
    ensures Arrives(s, Arrived(s, id, key, Some(ask)), id, key, ask, Some(ask.reservedCost))
  {
  }

  // The price a guarded admission comes to, and the request it stands for.
  ghost function PriceAt(t: Tariff, op: GateRuns.Op): Option<int>
    requires op.Arrive?
  {
    if op.faults then None else t.reserve(op.model, op.promptTokens, op.requestedMax)
  }

  ghost function AskAt(t: Tariff, op: GateRuns.Op): Ask
    requires op.Arrive?
  {
    Ask(op.model, op.promptTokens, op.requestedMax, if PriceAt(t, op).None? then 0 else PriceAt(t, op).value)
  }

  lemma {:induction false} ArriveStep(t: Tariff, s: State, op: GateRuns.Op)
    requires op.Arrive? && op.id !in s.requests
    ensures Arrives(s, GateRuns.Step(t, s, op), op.id, op.key, AskAt(t, op), PriceAt(t, op))
  {
    if PriceAt(t, op).Some? && Covers(s.At(op.key), PriceAt(t, op).value) {
      LetIn(s, op.id, op.key, AskAt(t, op));
    } else {
      TurnedAway(s, op.id, op.key, AskAt(t, op), PriceAt(t, op));
    }
  }

  // Admission at a known price: the hold is placed exactly when nothing faults and the account covers it.
  method AdmitAt(g: Gate, ghost price: Option<int>, key: Key, model: string, promptTokens: int, requestedMax: int,
      faults: bool)
      returns (rsv: CreditReservation?, d: Decision)
    requires g.enforce && g.ledger != null && g.prices.Some? && g.ledger.Valid()
    requires price == ReserveCost(g.prices.value, model, promptTokens, requestedMax)
    modifies g`gatePanics, g.ledger, g.ledger.repr
    ensures g.ledger.Valid()
    ensures d.Admitted? <==> !faults && price.Some? && Covers(old(g.ledger.At(key)), price.value)
    ensures d.Admitted? ==> rsv != null && rsv.Holds() && rsv.inner.ledger == g.ledger && !rsv.inner.done
    ensures d.Admitted? ==> rsv.model == model && rsv.reservedCost == price.value && rsv.inner.key == key
    ensures forall other :: other != key ==> g.ledger.At(other) == old(g.ledger.At(other))
    ensures g.ledger.At(key) == if !faults && price.Some? then Reserved(old(g.ledger.At(key)), price.value)
                                else old(g.ledger.At(key))
  {
    rsv, d := g.GuardedAdmit(key, model, promptTokens, requestedMax, faults);
  }

  // From any state to one that such an arrival leads to.
  method ArrivalInto(g: Gate, ghost s: State, ghost s': State, ghost id: nat, ghost ask: Ask,
      ghost price: Option<int>, key: Key, model: string, promptTokens: int, requestedMax: int, faults: bool)
      returns (rsv: CreditReservation?, d: Decision)
    requires g.enforce && g.ledger != null && g.prices.Some? && Mirrors(g.ledger, s)
    requires price == if faults then None else ReserveCost(g.prices.value, model, promptTokens, requestedMax)
    requires Arrives(s, s', id, key, ask, price)
    requires price.Some? ==> ask == Ask(model, promptTokens, requestedMax, price.value)
    modifies g`gatePanics, g.ledger, g.ledger.repr
    ensures Mirrors(g.ledger, s')
    ensures id in s'.requests
    ensures d.Admitted? ==> rsv != null && Backs(rsv, g.ledger, s'.requests[id])
    ensures !d.Admitted? ==> s'.requests[id] == Turned(key)
  {
    ghost var cost := ReserveCost(g.prices.value, model, promptTokens, requestedMax);
    rsv, d := AdmitAt(g, cost, key, model, promptTokens, requestedMax, faults);
  }

  // A guarded admission of an enforcing gate is the arrival of a request.
  method Arrival(g: Gate, ghost t: Tariff, ghost s: State, ghost op: GateRuns.Op,
      key: Key, model: string, promptTokens: int, requestedMax: int, faults: bool)
      returns (rsv: CreditReservation?, d: Decision)
    requires g.enforce && g.ledger != null && g.prices.Some? && t == TariffOf(g.prices.value)
    requires op.Arrive? && op == Arrive(op.id, key, model, promptTokens, requestedMax, faults)
    requires Mirrors(g.ledger, s) && op.id !in s.requests
    modifies g`gatePanics, g.ledger, g.ledger.repr
    ensures var s' := GateRuns.Step(t, s, op);
      && Mirrors(g.ledger, s') && op.id in s'.requests
      && (d.Admitted? ==> rsv != null && Backs(rsv, g.ledger, s'.requests[op.id]))
      && (!d.Admitted? ==> s'.requests[op.id] == Turned(key))
  {
    ArriveStep(t, s, op);
    rsv, d := ArrivalInto(g, s, GateRuns.Step(t, s, op), op.id, AskAt(t, op), PriceAt(t, op),
                          key, model, promptTokens, requestedMax, faults);
  }

  // What an exit makes of the accounts.
  ghost predicate Departs(s: State, s': State, r: GateRuns.Request, settlement: Settlement)
    requires r.Held?
  {
    && s'.At(r.key) == Settled(s.At(r.key), r.hold, settlement)
    && forall other :: other != r.key ==> s'.At(other) == s.At(other)
  }

  lemma {:induction false} ExitStep(t: Tariff, s: State, op: GateRuns.Op)
    requires op.Exit? && op.id in s.requests && s.requests[op.id].Held?
    ensures var r := s.requests[op.id];
      Departs(s, GateRuns.Step(t, s, op), r, ExitSettlement(t, r, op.cap, op.faults))
  {
  }

  // From any state to one that such an exit leads to.
  method DepartureInto(rsv: CreditReservation, ghost s: State, ghost s': State, ghost r: GateRuns.Request,
      cap: Capture, faults: bool)
    requires rsv.gate != null && rsv.gate.ledger != null && rsv.gate.prices.Some?
    requires Mirrors(rsv.gate.ledger, s) && Backs(rsv, rsv.gate.ledger, r)
    requires Departs(s, s', r, ExitSettlement(TariffOf(rsv.gate.prices.value), r, cap, faults))
    modifies rsv.gate, rsv.inner, rsv.gate.ledger, rsv.gate.ledger.repr
    ensures Mirrors(rsv.gate.ledger, s') && rsv.inner.done
  {
    CreditReservation.GuardedResolve(rsv, cap, faults);
  }

  // A guarded resolution is the exit of that request.
  method Departure(rsv: CreditReservation, ghost t: Tariff, ghost s: State, ghost op: GateRuns.Op,
      cap: Capture, faults: bool)
    requires rsv.gate != null && rsv.gate.ledger != null
    requires rsv.gate.prices.Some? && t == TariffOf(rsv.gate.prices.value)
    requires op.Exit? && op == Exit(op.id, cap, faults)
    requires Mirrors(rsv.gate.ledger, s) && op.id in s.requests && Backs(rsv, rsv.gate.ledger, s.requests[op.id])
    modifies rsv.gate, rsv.inner, rsv.gate.ledger, rsv.gate.ledger.repr
    ensures Mirrors(rsv.gate.ledger, GateRuns.Step(t, s, op)) && rsv.inner.done
  {
    ExitStep(t, s, op);
    DepartureInto(rsv, s, GateRuns.Step(t, s, op), s.requests[op.id], cap, faults);
  }
}
