/** The billing gate: price and hold at admission, settle once on every exit, contain its own faults
    (proxy/credit_gate.go, proxy/credit_gate_wiring.go).

    A recovered panic is a parameter: `faults` says that the guarded call panicked before it reached the
    ledger, which is where a healthy ledger leaves room for one. */
module GateSpec {
  import opened Basics
  import opened Pricing
  import opened LedgerSpec

  datatype Decision = Off | Admitted | Unpriced | Insufficient | Fault

  // The request-scoped outcome the metrics monitor fills in.
  datatype Capture = NoCapture | Capture(status: int, input: int, output: int)

  const STATUS_OK := 200

  // How requests are priced: the price to reserve for a model, a prompt and a requested maximum, and the price
  // of metered tokens.  No price means that the model has none.
  datatype Tariff = Tariff(reserve: (string, int, int) -> Option<int>, actual: (string, int, int) -> Option<int>)

  function TariffOf(pb: PriceBook): Tariff {
    Tariff(
      (model, promptTokens, requestedMax) => ReserveCost(pb, model, promptTokens, requestedMax),
      (model, input, output) => ActualCost(pb, model, input, output))
  }

  // What resolving a hold asks of the ledger.
  datatype Settlement = Refund | Charge(amount: int)

  function Settle(t: Tariff, model: string, reservedCost: int, cap: Capture): Settlement {
    if cap.NoCapture? || cap.status != STATUS_OK then Refund
    else if cap.input <= 0 && cap.output <= 0 then Charge(reservedCost)
    else Metered(t.actual(model, cap.input, cap.output))
  }

  // A metered exit charges its price, or nothing when it unexpectedly has none.
  function Metered(actual: Option<int>): Settlement {
    if actual.None? then Charge(0) else Charge(actual.value)
  }

  // A served exit with usage, the only kind whose price is looked up.
  predicate IsMetered(cap: Capture) {
    cap.Capture? && cap.status == STATUS_OK && (cap.input > 0 || cap.output > 0)
  }

  function Settled(a: Account, hold: int, s: Settlement): Account {
    match s
    case Refund => Released(a, hold)
    case Charge(amount) => TruedUp(a, hold, amount)
  }

  function BillFor(hold: int, s: Settlement): int {
    match s
    case Refund => 0
    case Charge(amount) => Billed(amount, hold)
  }

  // Every settlement gives the whole hold back, and leaves exactly its bill pending.
  lemma {:induction false} SettledAccount(a: Account, hold: nat, s: Settlement)
    ensures Settled(a, hold, s) == a.(reserved := a.reserved - hold, pending := a.pending + BillFor(hold, s))
    ensures 0 <= BillFor(hold, s) <= hold
  {
  }

  datatype Anomaly = Anomaly(clamps: int, pricingFails: int)

  // The anomaly a served, metered exit leaves: a metered price above the hold, or none at all.
  function Observed(a: Anomaly, reservedCost: int, actual: Option<int>): Anomaly {
    match actual
    case None => a.(pricingFails := a.pricingFails + 1)
    case Some(price) => if price > reservedCost then a.(clamps := a.clamps + 1) else a
  }
}

module CreditGate {
  import opened Basics
  import opened Pricing
  import opened LedgerSpec
  import opened CreditLedger
  import opened GateSpec

  class Gate {
    const enforce: bool
    const failOpen: bool
    const ledger: Ledger?
    const prices: Option<PriceBook>
    var anomalies: map<string, Anomaly>
    var gatePanics: int

    constructor (enforce: bool, failOpen: bool, ledger: Ledger?, prices: Option<PriceBook>)
      ensures this.enforce == enforce && this.failOpen == failOpen
      ensures this.ledger == ledger && this.prices == prices && anomalies == map[] && gatePanics == 0
    {
      this.enforce, this.failOpen, this.ledger, this.prices := enforce, failOpen, ledger, prices;
      anomalies, gatePanics := map[], 0;
    }

    function AnomalyOf(model: string): Anomaly
      reads this
    {
      if model in anomalies then anomalies[model] else Anomaly(0, 0)
    }

    // What admission answers, given the price to reserve and the account it would charge.
    function Decides(cost: Option<int>, a: Account): Decision {
      if !enforce then Off
      else if cost.None? then Unpriced
      else if Covers(a, cost.value) then Admitted
      else Insufficient
    }

    // A missing price book or ledger prices nothing.
    function CostToReserve(model: string, promptTokens: int, requestedMax: int): Option<int> {
      if prices.None? || ledger == null then None else ReserveCost(prices.value, model, promptTokens, requestedMax)
    }

    ghost function Charged(key: Key): Account
      requires ledger != null ==> ledger.Valid()
      reads if ledger == null then {} else {ledger} + ledger.repr
    {
      if ledger == null then ZERO_ACCOUNT else ledger.At(key)
    }

    // A hold for `cost` on `key` was placed and nothing else happened.
    twostate predicate Placed(new rsv: CreditReservation, key: Key, cost: int)
      requires ledger != null && old(ledger.Valid()) && ledger.Valid()
      reads rsv, ledger, ledger.repr, if rsv.inner == null then {} else {rsv.inner}
    {
      && rsv.gate == this && rsv.Holds() && !rsv.inner.done
      && rsv.inner.key == key && rsv.reservedCost == cost
      && ledger.Only(key, Reserved(old(ledger.At(key)), cost))
    }

    method Admit(key: Key, model: string, promptTokens: int, requestedMax: int)
      returns (rsv: CreditReservation?, d: Decision)
      requires ledger != null ==> ledger.Valid()
      modifies if ledger == null then {} else {ledger} + ledger.repr
      ensures ledger != null ==> ledger.Valid() && fresh(ledger.repr - old(ledger.repr))
      ensures !enforce ==> d.Off?
      ensures enforce ==> d.Admitted? || d.Unpriced? || d.Insufficient?
      ensures enforce ==> (d.Unpriced? <==> !(ledger != null && prices.Some? && model in prices.value))
      ensures enforce && !d.Unpriced? ==>
                var price := ReserveCost(prices.value, model, promptTokens, requestedMax).value;
                d.Insufficient? <==> old(ledger.At(key)).Available() < if price < 0 then 0 else price
      ensures d == Decides(CostToReserve(model, promptTokens, requestedMax), old(Charged(key)))
      ensures rsv != null <==> d.Off? || d.Admitted?
      ensures d.Off? ==> rsv.gate == null && rsv.inner == null
      ensures d.Admitted? ==> ledger != null && rsv.model == model
                              && Placed(rsv, key, CostToReserve(model, promptTokens, requestedMax).value)
      ensures d.Admitted? ==>
                prices.Some? && Some(rsv.reservedCost) == ReserveCost(prices.value, model, promptTokens, requestedMax)
      ensures ledger != null && !d.Admitted? ==> forall other :: ledger.At(other) == old(ledger.At(other))
    {
      if !enforce {
        rsv := new CreditReservation(null, null, model, 0);
        return rsv, Off;
      }
      if prices.None? || ledger == null {
        return null, Unpriced;
      }
      var cost := ReserveCost(prices.value, model, promptTokens, requestedMax);
      if cost.None? {
        return null, Unpriced;
      }
      rsv, d := HoldFor(key, model, cost.value);
    }

    // The priced half of Admit.
    method HoldFor(key: Key, model: string, cost: int) returns (rsv: CreditReservation?, d: Decision)
      requires ledger != null && prices.Some? && ledger.Valid()
      modifies ledger, ledger.repr
      ensures ledger.Valid() && fresh(ledger.repr - old(ledger.repr))
      ensures d == if Covers(old(ledger.At(key)), cost) then Admitted else Insufficient
      ensures d.Admitted? <==> rsv != null
      ensures d.Admitted? ==> rsv.model == model && Placed(rsv, key, cost)
      ensures !d.Admitted? ==> forall other :: ledger.At(other) == old(ledger.At(other))
    {
      var hold, ok := ledger.Reserve(key, cost);
      if !ok {
        return null, Insufficient;
      }
      rsv := new CreditReservation(this, hold, model, cost);
      return rsv, Admitted;
    }

    // Admit inside the containment boundary.  The canary policy serves un-metered on a fault.
    method GuardedAdmit(key: Key, model: string, promptTokens: int, requestedMax: int, faults: bool)
      returns (rsv: CreditReservation?, d: Decision)
      requires ledger != null ==> ledger.Valid()
      modifies this`gatePanics, if ledger == null then {} else {ledger} + ledger.repr
      ensures ledger != null ==> ledger.Valid() && fresh(ledger.repr - old(ledger.repr))
      ensures gatePanics == old(gatePanics) + if faults then 1 else 0
      ensures faults ==> d == if failOpen then Off else Fault
      ensures !faults && !enforce ==> d.Off?
      ensures !faults && enforce ==> d.Admitted? || d.Unpriced? || d.Insufficient?
      ensures !faults && enforce ==> (d.Unpriced? <==> !(ledger != null && prices.Some? && model in prices.value))
      ensures !faults && enforce && !d.Unpriced? ==>
                var price := ReserveCost(prices.value, model, promptTokens, requestedMax).value;
                d.Insufficient? <==> old(ledger.At(key)).Available() < if price < 0 then 0 else price
      ensures rsv != null <==> d.Off? || d.Admitted?
      ensures d.Off? ==> rsv.gate == null && rsv.inner == null
      ensures d.Admitted? ==> ledger != null && rsv.model == model
                              && Placed(rsv, key, CostToReserve(model, promptTokens, requestedMax).value)
      ensures d.Admitted? ==>
                prices.Some? && Some(rsv.reservedCost) == ReserveCost(prices.value, model, promptTokens, requestedMax)
      ensures ledger != null && !d.Admitted? ==> forall other :: ledger.At(other) == old(ledger.At(other))
    {
      if !faults {
        rsv, d := Admit(key, model, promptTokens, requestedMax);
        return;
      }
      gatePanics := gatePanics + 1;
      if failOpen {
        rsv := new CreditReservation(null, null, model, 0);
        return rsv, Off;
      }
      return null, Fault;
    }
  }

  // A request's hold.  A gate that is off hands out one with no gate and no inner hold, on which every
  // operation is inert.
  class CreditReservation {
    const gate: Gate?
    const inner: Reservation?
    const model: string
    const reservedCost: int

    constructor (gate: Gate?, inner: Reservation?, model: string, reservedCost: int)
      ensures this.gate == gate && this.inner == inner && this.model == model && this.reservedCost == reservedCost
    {
      this.gate, this.inner, this.model, this.reservedCost := gate, inner, model, reservedCost;
    }

    // A metered reservation, as Admit builds it.
    predicate Holds() {
      && gate != null && inner != null && gate.ledger != null && gate.prices.Some?
      && inner.ledger == gate.ledger && inner.cost == AtLeastZero(reservedCost)
    }

    // The ledger after an exit that asks for `s`: settled once, and inert from then on.
    twostate predicate SettlesOnce(s: Settlement)
      requires Holds() && old(inner.ledger.Valid()) && inner.ledger.Valid()
      reads inner, inner.ledger, inner.ledger.repr
    {
      && inner.done
      && (!old(inner.done) ==>
            inner.ledger.Only(inner.key, Settled(old(inner.ledger.At(inner.key)), inner.cost, s)))
      && (old(inner.done) ==> forall key :: inner.ledger.At(key) == old(inner.ledger.At(key)))
    }

    // Nothing to resolve: no reservation, or the inert one of a gate that is off.
    static predicate Inert(rsv: CreditReservation?) {
      rsv == null || rsv.inner == null
    }

    static ghost predicate Ready(rsv: CreditReservation?)
      reads if Inert(rsv) then {} else {rsv.inner.ledger} + rsv.inner.ledger.repr
    {
      !Inert(rsv) ==> rsv.Holds() && rsv.inner.ledger.Valid()
    }

    // The anomaly counters after an exit with the metered price `actual`: this model's, and no other's.
    twostate predicate Records(actual: Option<int>)
      requires gate != null
      reads gate
    {
      && gate.AnomalyOf(model) == Observed(old(gate.AnomalyOf(model)), reservedCost, actual)
      && forall other :: other != model ==> gate.AnomalyOf(other) == old(gate.AnomalyOf(other))
    }

    // One more pricing failure when there is no price, one more clamp when the price passes the reserve.
    twostate predicate Marks(actual: Option<int>)
      requires gate != null
      reads gate
    {
      var was, now := old(gate.AnomalyOf(model)), gate.AnomalyOf(model);
      && now.pricingFails - was.pricingFails == (if actual.None? then 1 else 0)
      && now.clamps - was.clamps == (if actual.Some? && actual.value > reservedCost then 1 else 0)
    }

    static method Release(rsv: CreditReservation?)
      requires Ready(rsv)
      modifies if Inert(rsv) then {} else {rsv.inner, rsv.inner.ledger} + rsv.inner.ledger.repr
      ensures Ready(rsv)
      ensures !Inert(rsv) ==> fresh(rsv.inner.ledger.repr - old(rsv.inner.ledger.repr)) && rsv.SettlesOnce(Refund)
    {
      if rsv == null || rsv.inner == null {
        return;
      }
      Reservation.Release(rsv.inner);
    }

    static method TrueUpReserved(rsv: CreditReservation?)
      requires Ready(rsv)
      modifies if Inert(rsv) then {} else {rsv.inner, rsv.inner.ledger} + rsv.inner.ledger.repr
      ensures Ready(rsv)
      ensures !Inert(rsv) ==>
                fresh(rsv.inner.ledger.repr - old(rsv.inner.ledger.repr)) && rsv.SettlesOnce(Charge(rsv.reservedCost))
    {
      if rsv == null || rsv.inner == null {
        return;
      }
      var _ := Reservation.TrueUp(rsv.inner, rsv.reservedCost);
    }

    static method TrueUp(rsv: CreditReservation?, input: int, output: int)
      requires Ready(rsv)
      modifies if Inert(rsv) then {} else {rsv.gate, rsv.inner, rsv.inner.ledger} + rsv.inner.ledger.repr
      ensures Ready(rsv)
      ensures !Inert(rsv) ==>
                var actual := ActualCost(rsv.gate.prices.value, rsv.model, input, output);
                && fresh(rsv.inner.ledger.repr - old(rsv.inner.ledger.repr))
                && rsv.SettlesOnce(Metered(actual)) && rsv.Records(actual) && rsv.Marks(actual)
                && rsv.gate.gatePanics == old(rsv.gate.gatePanics)
    {
      if rsv == null || rsv.inner == null {
        return;
      }
      rsv.TrueUpPriced(ActualCost(rsv.gate.prices.value, rsv.model, input, output));
    }

    // TrueUp once the metered tokens are priced.
    method TrueUpPriced(actual: Option<int>)
      requires Holds() && inner.ledger.Valid()
      modifies gate`anomalies, inner, inner.ledger, inner.ledger.repr
      ensures inner.ledger.Valid() && fresh(inner.ledger.repr - old(inner.ledger.repr))
      ensures SettlesOnce(Metered(actual))
      ensures Records(actual) && Marks(actual)
    {
      var a := gate.AnomalyOf(model);
      if actual.None? {
        gate.anomalies := gate.anomalies[model := a.(pricingFails := a.pricingFails + 1)];
        var _ := Reservation.TrueUp(inner, 0);
        return;
      }
      if actual.value > reservedCost {
        gate.anomalies := gate.anomalies[model := a.(clamps := a.clamps + 1)];
      }
      var _ := Reservation.TrueUp(inner, actual.value);
    }

    // What an exit leaves: one settlement, the price's anomaly if it was metered, and no other counter.
    twostate predicate Resolves(cap: Capture)
      requires Holds() && old(inner.ledger.Valid()) && inner.ledger.Valid()
      reads gate, inner, inner.ledger, inner.ledger.repr
    {
      && SettlesOnce(Settle(TariffOf(gate.prices.value), model, reservedCost, cap))
      && (IsMetered(cap) ==>
            var actual := ActualCost(gate.prices.value, model, cap.input, cap.output);
            Records(actual) && Marks(actual))
      && (!IsMetered(cap) ==> gate.anomalies == old(gate.anomalies))
    }

    static method Resolve(rsv: CreditReservation?, cap: Capture)
      requires Ready(rsv)
      modifies if Inert(rsv) then {} else {rsv.gate, rsv.inner, rsv.inner.ledger} + rsv.inner.ledger.repr
      ensures Ready(rsv)
      ensures !Inert(rsv) ==>
                && fresh(rsv.inner.ledger.repr - old(rsv.inner.ledger.repr))
                && rsv.Resolves(cap) && rsv.gate.gatePanics == old(rsv.gate.gatePanics)
    {
      if cap.NoCapture? || cap.status != STATUS_OK {
        Release(rsv);
        return;
      }
      if cap.input <= 0 && cap.output <= 0 {
        TrueUpReserved(rsv);
        return;
      }
      TrueUp(rsv, cap.input, cap.output);
    }

    // Resolve inside the containment boundary: a fault is counted and the hold is released instead.
    static method GuardedResolve(rsv: CreditReservation?, cap: Capture, faults: bool)
      requires Ready(rsv) && (rsv != null ==> (rsv.gate == null <==> rsv.inner == null))
      modifies if Inert(rsv) then {} else {rsv.gate, rsv.inner, rsv.inner.ledger} + rsv.inner.ledger.repr
      ensures Ready(rsv)
      ensures !Inert(rsv) ==>
                && fresh(rsv.inner.ledger.repr - old(rsv.inner.ledger.repr))
                && rsv.gate.gatePanics == old(rsv.gate.gatePanics) + (if faults then 1 else 0)
                && (!faults ==> rsv.Resolves(cap))
                && (faults ==> rsv.SettlesOnce(Refund) && rsv.gate.anomalies == old(rsv.gate.anomalies))
    {
      if rsv == null {
        return;
      }
      if rsv.gate == null {
        Resolve(rsv, cap);
        return;
      }
      if faults {
        rsv.gate.gatePanics := rsv.gate.gatePanics + 1;
        Release(rsv);
      } else {
        Resolve(rsv, cap);
      }
    }
  }
}
