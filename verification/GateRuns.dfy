/** Interleaved enforced requests against one ledger: each holds its worst-case price on arrival and
    settles when its handler exits. */
module GateRuns {
  import opened Basics
  import opened Sums
  import opened Pricing
  import opened LedgerSpec
  import opened GateSpec

  // What a request asked for, and what it was priced at.
  datatype Ask = Ask(model: string, promptTokens: int, requestedMax: int, reservedCost: int)

  datatype Request =
    | Turned(key: Key)  // denied, or served un-metered
    | Held(key: Key, hold: nat, ask: Ask)
    | Done(key: Key, bill: int, ask: Ask, cap: Capture, faults: bool)  // and how it went out

  datatype Op =
    | Arrive(id: nat, key: Key, model: string, promptTokens: int, requestedMax: int, faults: bool)
    | Exit(id: nat, cap: Capture, faults: bool)

  datatype State = State(accounts: map<Key, Account>, requests: map<nat, Request>) {
    function At(key: Key): Account {
      if key in accounts then accounts[key] else ZERO_ACCOUNT
    }
  }

  // What a held request asks for on its way out; a fault before the ledger is reached refunds it.
  function ExitSettlement(t: Tariff, r: Request, cap: Capture, faults: bool): Settlement
    requires r.Held?
  {
    if faults then Refund else Settle(t, r.ask.model, r.ask.reservedCost, cap)
  }

  function Arrived(s: State, id: nat, key: Key, priced: Option<Ask>): State {
    if priced.None? || !Covers(s.At(key), priced.value.reservedCost)
    then s.(requests := s.requests[id := Turned(key)])
    else State(
      s.accounts[key := Reserved(s.At(key), priced.value.reservedCost)],
      s.requests[id := Held(key, AtLeastZero(priced.value.reservedCost), priced.value)])
  }

  // A request's price, if it has one and admission did not panic before asking for it.
  function Priced(t: Tariff, model: string, promptTokens: int, requestedMax: int, faults: bool): Option<Ask> {
    var cost := t.reserve(model, promptTokens, requestedMax);
    if faults || cost.None? then None else Some(Ask(model, promptTokens, requestedMax, cost.value))
  }

  function Exited(s: State, id: nat, settlement: Settlement, cap: Capture, faults: bool): State
    requires id in s.requests && s.requests[id].Held?
  {
    var r := s.requests[id];
    State(
      s.accounts[r.key := Settled(s.At(r.key), r.hold, settlement)],
      s.requests[id := Done(r.key, BillFor(r.hold, settlement), r.ask, cap, faults)])
  }

  function Step(t: Tariff, s: State, op: Op): State {
    match op
    case Arrive(id, key, model, promptTokens, requestedMax, faults) =>
      if id in s.requests then s
      else Arrived(s, id, key, Priced(t, model, promptTokens, requestedMax, faults))
    case Exit(id, cap, faults) =>
      if id !in s.requests || !s.requests[id].Held? then s
      else Exited(s, id, ExitSettlement(t, s.requests[id], cap, faults), cap, faults)
  }

  function Run(t: Tariff, start: map<Key, Account>, ops: seq<Op>): State {
    if ops == [] then State(start, map[])
    else Step(t, Run(t, start, ops[..|ops| - 1]), ops[|ops| - 1])
  }

  // The outstanding holds and the bills of one key, by request.
  ghost function Holds(m: map<nat, Request>, key: Key): map<nat, int> {
    map id | id in m && m[id].Held? && m[id].key == key :: m[id].hold
  }

  ghost function Bills(m: map<nat, Request>, key: Key): map<nat, int> {
    map id | id in m && m[id].Done? && m[id].key == key :: m[id].bill
  }

  // The account as it was, with the outstanding holds and the bills of `m` on top.
  ghost function Loaded(a: Account, m: map<nat, Request>, key: Key): Account {
    a.(reserved := a.reserved + SumMap(Holds(m, key)), pending := a.pending + SumMap(Bills(m, key)))
  }

  // A run that began on `before` has left `key` holding exactly what its requests account for.
  ghost predicate Balanced(before: Account, s: State, key: Key) {
    s.At(key) == Loaded(before, s.requests, key)
  }

  lemma {:induction false} TurnedKeepsSums(m: map<nat, Request>, id: nat, k: Key, key: Key)
    requires id !in m
    ensures SumMap(Holds(m[id := Turned(k)], key)) == SumMap(Holds(m, key))
    ensures SumMap(Bills(m[id := Turned(k)], key)) == SumMap(Bills(m, key))
  {
    assert Holds(m[id := Turned(k)], key) == Holds(m, key);
    assert Bills(m[id := Turned(k)], key) == Bills(m, key);
  }

  lemma {:induction false} HeldAddsHold(m: map<nat, Request>, id: nat, r: Request, key: Key)
    requires id !in m && r.Held?
    ensures SumMap(Holds(m[id := r], key)) == SumMap(Holds(m, key)) + if r.key == key then r.hold else 0
    ensures SumMap(Bills(m[id := r], key)) == SumMap(Bills(m, key))
  {
    assert Bills(m[id := r], key) == Bills(m, key);
    if r.key == key {
      assert Holds(m[id := r], key) == Holds(m, key)[id := r.hold];
      SumInsert(Holds(m, key), id, r.hold);
    } else {
      assert Holds(m[id := r], key) == Holds(m, key);
    }
  }

  lemma {:induction false} DoneMovesHoldToBill(m: map<nat, Request>, id: nat, done: Request, key: Key)
    requires id in m && m[id].Held? && done.Done? && done.key == m[id].key
    ensures var m' := m[id := done]; var mine := m[id].key == key;
      && SumMap(Holds(m', key)) == SumMap(Holds(m, key)) - (if mine then m[id].hold else 0)
      && SumMap(Bills(m', key)) == SumMap(Bills(m, key)) + (if mine then done.bill else 0)
  {
    var m' := m[id := done];
    if m[id].key == key {
      assert Holds(m', key) == Holds(m, key) - {id};
      SumRemove(Holds(m, key), id);
      assert Bills(m', key) == Bills(m, key)[id := done.bill];
      SumInsert(Bills(m, key), id, done.bill);
    } else {
      assert Holds(m', key) == Holds(m, key);
      assert Bills(m', key) == Bills(m, key);
    }
  }

  lemma {:induction false} AdmittedKeepsBalance(before: Account, s: State, id: nat, acted: Key, ask: Ask, key: Key)
    requires Balanced(before, s, key) && id !in s.requests && Covers(s.At(acted), ask.reservedCost)
    ensures Balanced(before, Arrived(s, id, acted, Some(ask)), key)
  {
    HeldAddsHold(s.requests, id, Held(acted, AtLeastZero(ask.reservedCost), ask), key);
  }

  lemma {:induction false} ArrivalKeepsBalance(before: Account, s: State, id: nat, acted: Key,
      priced: Option<Ask>, key: Key)
    requires Balanced(before, s, key) && id !in s.requests
    ensures Balanced(before, Arrived(s, id, acted, priced), key)
  {
    if priced.Some? && Covers(s.At(acted), priced.value.reservedCost) {
      AdmittedKeepsBalance(before, s, id, acted, priced.value, key);
    } else {
      TurnedKeepsSums(s.requests, id, acted, key);
    }
  }

  lemma {:induction false} ExitKeepsBalance(before: Account, s: State, id: nat, settlement: Settlement,
      cap: Capture, faults: bool, key: Key)
    requires Balanced(before, s, key) && id in s.requests && s.requests[id].Held?
    ensures Balanced(before, Exited(s, id, settlement, cap, faults), key)
  {
    var r := s.requests[id];
    SettledAccount(s.At(r.key), r.hold, settlement);
    DoneMovesHoldToBill(s.requests, id, Done(r.key, BillFor(r.hold, settlement), r.ask, cap, faults), key);
  }

  lemma {:induction false} StepKeepsBalance(before: Account, t: Tariff, s: State, op: Op, key: Key)
    requires Balanced(before, s, key)
    ensures Balanced(before, Step(t, s, op), key)
  {
    match op
    case Arrive(id, acted, model, promptTokens, requestedMax, faults) =>
      if id !in s.requests {
        ArrivalKeepsBalance(before, s, id, acted, Priced(t, model, promptTokens, requestedMax, faults), key);
      }
    case Exit(id, cap, faults) =>
      if id in s.requests && s.requests[id].Held? {
        ExitKeepsBalance(before, s, id, ExitSettlement(t, s.requests[id], cap, faults), cap, faults, key);
      }
  }

  lemma {:induction false} EveryRunBalances(t: Tariff, start: map<Key, Account>, ops: seq<Op>, key: Key)
    ensures Balanced(State(start, map[]).At(key), Run(t, start, ops), key)
  {
    if ops == [] {
      var none: map<nat, Request> := map[];
      assert Holds(none, key) == map[] && Bills(none, key) == map[];
    } else {
      EveryRunBalances(t, start, ops[..|ops| - 1], key);
      StepKeepsBalance(State(start, map[]).At(key), t, Run(t, start, ops[..|ops| - 1]), ops[|ops| - 1], key);
    }
  }

  ghost predicate AllExited(s: State) {
    forall id :: id in s.requests ==> !s.requests[id].Held?
  }

  // `after` is `before` with `bills` charged and every hold given back.
  ghost predicate ChargedOnly(before: Account, after: Account, bills: int) {
    && after == before.(pending := before.pending + bills)
    && after.Available() == before.Available() - bills
  }

  lemma {:induction false} NoHoldsLeft(before: Account, s: State, key: Key)
    requires Balanced(before, s, key) && AllExited(s)
    ensures ChargedOnly(before, s.At(key), SumMap(Bills(s.requests, key)))
  {
    assert Holds(s.requests, key) == map[];
  }

  // Once every request has exited, each key's holds are all back, its balance is down by exactly its
  // bills, and nothing else about its account moved.
  lemma {:induction false} AllExitedReturnsEveryHold(t: Tariff, start: map<Key, Account>, ops: seq<Op>, key: Key)
    requires AllExited(Run(t, start, ops))
    ensures ChargedOnly(
      State(start, map[]).At(key), Run(t, start, ops).At(key), SumMap(Bills(Run(t, start, ops).requests, key)))
  {
    EveryRunBalances(t, start, ops, key);
    NoHoldsLeft(State(start, map[]).At(key), Run(t, start, ops), key);
  }

  // A hold is resolved once: whatever a request settled at, it stays settled at.
  lemma {:induction false} SettledStaysSettled(t: Tariff, start: map<Key, Account>, ops: seq<Op>,
      more: seq<Op>, id: nat)
    requires id in Run(t, start, ops).requests && Run(t, start, ops).requests[id].Done?
    ensures id in Run(t, start, ops + more).requests
    ensures Run(t, start, ops + more).requests[id] == Run(t, start, ops).requests[id]
  {
    if more == [] {
      assert ops + more == ops;
    } else {
      SettledStaysSettled(t, start, ops, more[..|more| - 1], id);
      assert (ops + more)[..|ops + more| - 1] == ops + more[..|more| - 1];
    }
  }

  // ---- the bill of every request that has gone out ----

  ghost predicate WellPriced(t: Tariff, ask: Ask) {
    t.reserve(ask.model, ask.promptTokens, ask.requestedMax) == Some(ask.reservedCost)
  }

  // Every hold is the price of what its request asked for, and every bill the settlement of such a hold.
  ghost predicate Accountable(t: Tariff, r: Request) {
    match r
    case Turned(_) => true
    case Held(_, hold, ask) => WellPriced(t, ask) && hold == AtLeastZero(ask.reservedCost)
    case Done(key, bill, ask, cap, faults) =>
      && WellPriced(t, ask)
      && bill == BillFor(AtLeastZero(ask.reservedCost),
                         ExitSettlement(t, Held(key, AtLeastZero(ask.reservedCost), ask), cap, faults))
  }

  lemma {:induction false} EveryRequestIsAccountable(t: Tariff, start: map<Key, Account>, ops: seq<Op>, id: nat)
    requires id in Run(t, start, ops).requests
    ensures Accountable(t, Run(t, start, ops).requests[id])
  {
    var s, op := Run(t, start, ops[..|ops| - 1]), ops[|ops| - 1];
    if id in s.requests {
      EveryRequestIsAccountable(t, start, ops[..|ops| - 1], id);
    }
  }

  // What a metered exit costs, within the hold.
  function Clamped(price: int, hold: int): int {
    if price < 0 then 0 else if price <= hold then price else hold
  }

  // On every run the bill of a request that has gone out is: nothing after a fault, without an outcome or
  // with a status other than 200; its whole reserve on a 200 without usage; and the metered price, within
  // the reserve, otherwise.
  lemma {:induction false} BillOnEveryRun(pb: PriceBook, start: map<Key, Account>, ops: seq<Op>, id: nat)
    requires id in Run(TariffOf(pb), start, ops).requests && Run(TariffOf(pb), start, ops).requests[id].Done?
    ensures var r := Run(TariffOf(pb), start, ops).requests[id];
      && r.ask.model in pb
      && var reserve := AtLeastZero(ReserveCost(pb, r.ask.model, r.ask.promptTokens, r.ask.requestedMax).value);
      && r.bill ==
           if r.faults || r.cap.NoCapture? || r.cap.status != STATUS_OK then 0
           else if r.cap.input <= 0 && r.cap.output <= 0 then reserve
           else Clamped(ActualCost(pb, r.ask.model, r.cap.input, r.cap.output).value, reserve)
  {
    EveryRequestIsAccountable(TariffOf(pb), start, ops, id);
  }

  // On every run a metered exit always finds a price, and records a clamp exactly when that price passes the
  // reserve: for a reserve that is not negative, when the bill falls short of the price.
  lemma {:induction false} ClampOnEveryRun(pb: PriceBook, start: map<Key, Account>, ops: seq<Op>, id: nat,
      seen: Anomaly)
    requires id in Run(TariffOf(pb), start, ops).requests && Run(TariffOf(pb), start, ops).requests[id].Done?
    requires var r := Run(TariffOf(pb), start, ops).requests[id]; !r.faults && IsMetered(r.cap)
    ensures var r := Run(TariffOf(pb), start, ops).requests[id];
      && var actual := ActualCost(pb, r.ask.model, r.cap.input, r.cap.output);
      && actual.Some?
      && var now := Observed(seen, r.ask.reservedCost, actual);
      && now.pricingFails == seen.pricingFails
      && (now.clamps == seen.clamps || now.clamps == seen.clamps + 1)
      && (r.ask.reservedCost >= 0 ==> (now.clamps > seen.clamps <==> r.bill < actual.value))
      && (r.ask.reservedCost < 0 ==> r.bill == 0 && (now.clamps > seen.clamps <==> actual.value > r.ask.reservedCost))
  {
    EveryRequestIsAccountable(TariffOf(pb), start, ops, id);
    ClampIffShort(pb, Run(TariffOf(pb), start, ops).requests[id], seen);
  }

  lemma {:induction false} ClampIffShort(pb: PriceBook, r: Request, seen: Anomaly)
    requires r.Done? && Accountable(TariffOf(pb), r) && !r.faults && IsMetered(r.cap)
    ensures var actual := ActualCost(pb, r.ask.model, r.cap.input, r.cap.output);
      && actual.Some?
      && var now := Observed(seen, r.ask.reservedCost, actual);
      && now.pricingFails == seen.pricingFails
      && (now.clamps == seen.clamps || now.clamps == seen.clamps + 1)
      && (r.ask.reservedCost >= 0 ==> (now.clamps > seen.clamps <==> r.bill < actual.value))
      && (r.ask.reservedCost < 0 ==> r.bill == 0 && (now.clamps > seen.clamps <==> actual.value > r.ask.reservedCost))
  {
    var price := ActualCost(pb, r.ask.model, r.cap.input, r.cap.output).value;
    assert r.bill == Billed(price, AtLeastZero(r.ask.reservedCost));
  }

  // Metering that stayed within what its request was priced for.
  ghost predicate MeteredInBounds(pb: PriceBook, r: Request)
    requires UsableBook(pb) && r.Done?
  {
    && !r.faults && r.cap.Capture? && r.cap.status == STATUS_OK && (r.cap.input > 0 || r.cap.output > 0)
    && r.ask.model in pb
    && Fits(pb[r.ask.model], AtLeastZero(r.ask.promptTokens), CompletionUpper(pb[r.ask.model], r.ask.requestedMax))
    && r.cap.input <= AtLeastZero(r.ask.promptTokens)
    && r.cap.output <= CompletionUpper(pb[r.ask.model], r.ask.requestedMax)
  }

  // On every run such metering bills the exact price: the clamp never fires and no anomaly is recorded.
  lemma {:induction false} InBoundsBillsExactly(pb: PriceBook, start: map<Key, Account>, ops: seq<Op>, id: nat,
      seen: Anomaly)
    requires UsableBook(pb)
    requires id in Run(TariffOf(pb), start, ops).requests && Run(TariffOf(pb), start, ops).requests[id].Done?
    requires MeteredInBounds(pb, Run(TariffOf(pb), start, ops).requests[id])
    ensures var r := Run(TariffOf(pb), start, ops).requests[id];
      && r.bill == TruePrice(pb[r.ask.model], AtLeastZero(r.cap.input), AtLeastZero(r.cap.output))
      && Observed(seen, r.ask.reservedCost, ActualCost(pb, r.ask.model, r.cap.input, r.cap.output)) == seen
  {
    var r := Run(TariffOf(pb), start, ops).requests[id];
    EveryRequestIsAccountable(TariffOf(pb), start, ops, id);
    InBoundsMeteringBillsExactly(pb, r, seen);
  }

  lemma {:induction false} InBoundsMeteringBillsExactly(pb: PriceBook, r: Request, seen: Anomaly)
    requires UsableBook(pb) && r.Done? && Accountable(TariffOf(pb), r) && MeteredInBounds(pb, r)
    ensures r.bill == TruePrice(pb[r.ask.model], AtLeastZero(r.cap.input), AtLeastZero(r.cap.output))
    ensures Observed(seen, r.ask.reservedCost, ActualCost(pb, r.ask.model, r.cap.input, r.cap.output)) == seen
  {
    ReserveCoversActual(pb, r.ask.model, r.ask.promptTokens, r.ask.requestedMax, r.cap.input, r.cap.output);
  }
}
