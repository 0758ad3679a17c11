/** Token-to-credit pricing (proxy/pricing.go), with Go's 64-bit wrap-around and truncating division
    written out. */
module Pricing {
  import opened Basics

  const TWO_63: int := 0x8000_0000_0000_0000
  const TWO_64: int := 0x1_0000_0000_0000_0000

  datatype ModelRate = ModelRate(inputPer1k: int, outputPer1k: int, maxOutputTokens: int)

  type PriceBook = map<string, ModelRate>

  // The rates a price book can hold: negative prices and non-positive ceilings are dropped when it is built.
  predicate Usable(r: ModelRate) {
    0 <= r.inputPer1k < TWO_63 && 0 <= r.outputPer1k < TWO_63 && 0 < r.maxOutputTokens < TWO_63
  }

  predicate UsableBook(pb: PriceBook) {
    forall model :: model in pb ==> Usable(pb[model])
  }

  function Wrap(x: int): int {
    (x + TWO_63) % TWO_64 - TWO_63
  }

  function Quotient(a: int, b: int): int
    requires b > 0
  {
    if a >= 0 then a / b else -(-a / b)
  }

  function CeilDiv(a: int, b: int): int
    requires b > 0
  {
    if a <= 0 then 0 else Quotient(Wrap(Wrap(a + b) - 1), b)
  }

  // The completion size a request reserves against: its own cap when set and below the model's ceiling.
  function CompletionUpper(r: ModelRate, requestedMax: int): int {
    if 0 < requestedMax < r.maxOutputTokens then requestedMax else r.maxOutputTokens
  }

  // The price of two token counts, given in thousandths of a credit.
  function PriceOf(milliIn: int, milliOut: int): int {
    Wrap(CeilDiv(Wrap(milliIn), 1000) + CeilDiv(Wrap(milliOut), 1000))
  }

  function Price(r: ModelRate, promptTokens: int, completionTokens: int): int {
    PriceOf(AtLeastZero(promptTokens) * r.inputPer1k, completionTokens * r.outputPer1k)
  }

  function ReserveCost(pb: PriceBook, model: string, promptTokens: int, requestedMax: int): Option<int> {
    if model !in pb then None
    else Some(Price(pb[model], promptTokens, CompletionUpper(pb[model], requestedMax)))
  }

  function ActualCost(pb: PriceBook, model: string, promptTokens: int, completionTokens: int): Option<int> {
    if model !in pb then None
    else Some(Price(pb[model], promptTokens, AtLeastZero(completionTokens)))
  }

  // ---- the price in unbounded arithmetic ----

  // The least number of whole credits that covers `milli` thousandths of a credit.
  ghost predicate IsCredits(milli: nat, n: nat) {
    milli <= n * 1000 && forall m: nat :: milli <= m * 1000 ==> n <= m
  }

  function Credits(milli: nat): (n: nat)
    ensures IsCredits(milli, n)
  {
    (milli + 999) / 1000
  }

  function TruePrice(r: ModelRate, prompt: nat, completion: nat): nat
    requires Usable(r)
  {
    Credits(prompt * r.inputPer1k) + Credits(completion * r.outputPer1k)
  }

  // Whether the 64-bit computation of a price stays in range.
  predicate Fits(r: ModelRate, prompt: nat, completion: nat) {
    prompt * r.inputPer1k + 999 < TWO_63 && completion * r.outputPer1k + 999 < TWO_63
  }

  lemma {:induction false} WrapInRange(x: int)
    ensures -TWO_63 <= Wrap(x) < TWO_63
    ensures -TWO_63 <= x < TWO_63 ==> Wrap(x) == x
  {
  }

  // One component of a price: exact when its product leaves room for the rounding, else too low.
  lemma {:induction false} ComponentExactIffFits(milli: nat)
    ensures CeilDiv(Wrap(milli), 1000) <= Credits(milli)
    ensures CeilDiv(Wrap(milli), 1000) == Credits(milli) <==> milli + 999 < TWO_63
    ensures -TWO_63 / 1000 <= CeilDiv(Wrap(milli), 1000) <= TWO_63 / 1000
  {
    var a := Wrap(milli);
    WrapInRange(milli);
    if a > 0 {
      WrapInRange(a + 1000);
      if a + 999 < TWO_63 {
        assert Wrap(Wrap(a + 1000) - 1) == a + 999;
      } else {
        assert Wrap(a + 1000) - 1 < 0 || a + 1000 == TWO_63;
        WrapInRange(Wrap(a + 1000) - 1);
      }
    }
  }

  lemma {:induction false} PriceOfExactIffFits(milliIn: nat, milliOut: nat)
    ensures PriceOf(milliIn, milliOut) <= Credits(milliIn) + Credits(milliOut)
    ensures PriceOf(milliIn, milliOut) == Credits(milliIn) + Credits(milliOut)
      <==> milliIn + 999 < TWO_63 && milliOut + 999 < TWO_63
  {
    ComponentExactIffFits(milliIn);
    ComponentExactIffFits(milliOut);
    WrapInRange(CeilDiv(Wrap(milliIn), 1000) + CeilDiv(Wrap(milliOut), 1000));
  }

  // A computed price is the true one exactly when nothing wraps; when something does, it is too low.
  lemma {:induction false} PriceExactIffFits(r: ModelRate, prompt: nat, completion: nat)
    requires Usable(r)
    ensures Price(r, prompt, completion) <= TruePrice(r, prompt, completion)
    ensures Price(r, prompt, completion) == TruePrice(r, prompt, completion) <==> Fits(r, prompt, completion)
  {
    PriceOfExactIffFits(prompt * r.inputPer1k, completion * r.outputPer1k);
  }

  lemma {:induction false} ProductMonotone(a: nat, b: nat, rate: nat)
    requires a <= b
    ensures a * rate <= b * rate
  {
  }

  lemma {:induction false} PriceOfMonotone(a: nat, b: nat, A: nat, B: nat)
    requires a <= A && b <= B && A + 999 < TWO_63 && B + 999 < TWO_63
    ensures PriceOf(a, b) == Credits(a) + Credits(b) <= PriceOf(A, B)
  {
    PriceOfExactIffFits(a, b);
    PriceOfExactIffFits(A, B);
  }

  lemma {:induction false} SmallerRequestCostsNoMore(r: ModelRate, p: nat, q: nat, P: nat, Q: nat)
    requires Usable(r) && Fits(r, P, Q) && p <= P && q <= Q
    ensures Price(r, p, q) == TruePrice(r, p, q) <= Price(r, P, Q)
  {
    ProductMonotone(p, P, r.inputPer1k);
    ProductMonotone(q, Q, r.outputPer1k);
    PriceOfMonotone(p * r.inputPer1k, q * r.outputPer1k, P * r.inputPer1k, Q * r.outputPer1k);
  }

  // A hold covers the true price of everything within its bounds exactly when its own price fits.
  lemma {:induction false} HoldCoversBoundsIffFits(r: ModelRate, P: nat, Q: nat)
    requires Usable(r)
    ensures (forall p: nat, q: nat :: p <= P && q <= Q ==> TruePrice(r, p, q) <= Price(r, P, Q)) <==> Fits(r, P, Q)
  {
    if Fits(r, P, Q) {
      forall p: nat, q: nat | p <= P && q <= Q
        ensures TruePrice(r, p, q) <= Price(r, P, Q)
      {
        SmallerRequestCostsNoMore(r, p, q, P, Q);
      }
    } else {
      PriceExactIffFits(r, P, Q);
      assert TruePrice(r, P, Q) > Price(r, P, Q);
    }
  }

  // A completion that neither the model's ceiling nor the request's own cap, when it sets one, cuts off.
  predicate Allowed(r: ModelRate, requestedMax: int, completion: nat) {
    completion <= r.maxOutputTokens && (requestedMax > 0 ==> completion <= requestedMax)
  }

  // A request is priced exactly when its model is, at its prompt and the longest completion it is allowed;
  // what it holds covers everything it may cost exactly when that price fits.
  lemma {:induction false} ReserveIsWorstCase(pb: PriceBook, model: string, promptTokens: int, requestedMax: int)
      returns (longest: nat)
    requires UsableBook(pb) && model in pb
    ensures Allowed(pb[model], requestedMax, longest)
    ensures forall q: nat :: Allowed(pb[model], requestedMax, q) ==> q <= longest
    ensures var r, P := pb[model], if promptTokens < 0 then 0 else promptTokens;
      var cost := ReserveCost(pb, model, promptTokens, requestedMax);
      && cost.Some? && cost.value <= TruePrice(r, P, longest)
      && (cost.value == TruePrice(r, P, longest) <==> Fits(r, P, longest))
      && ((forall p: nat, q: nat :: p <= P && Allowed(r, requestedMax, q) ==> TruePrice(r, p, q) <= cost.value)
          <==> Fits(r, P, longest))
  {
    var r, P := pb[model], if promptTokens < 0 then 0 else promptTokens;
    longest := if requestedMax > 0 && requestedMax <= r.maxOutputTokens then requestedMax else r.maxOutputTokens;
    assert ReserveCost(pb, model, promptTokens, requestedMax) == Some(Price(r, P, longest));
    PriceExactIffFits(r, P, longest);
    HoldCoversBoundsIffFits(r, P, longest);
  }

  // Metered tokens are priced exactly when their model is; a negative count costs nothing.
  lemma {:induction false} MeteredPriceExactIffFits(pb: PriceBook, model: string, promptTokens: int,
      completionTokens: int, P: nat, Q: nat)
    requires UsableBook(pb)
    requires P == (if promptTokens < 0 then 0 else promptTokens)
    requires Q == (if completionTokens < 0 then 0 else completionTokens)
    ensures model !in pb ==> ActualCost(pb, model, promptTokens, completionTokens) == None
    ensures model in pb ==>
              match ActualCost(pb, model, promptTokens, completionTokens)
              case None => false
              case Some(cost) =>
                cost <= TruePrice(pb[model], P, Q) && (cost == TruePrice(pb[model], P, Q) <==> Fits(pb[model], P, Q))
  {
    if model in pb {
      assert ActualCost(pb, model, promptTokens, completionTokens) == Some(Price(pb[model], P, Q));
      PriceExactIffFits(pb[model], P, Q);
    }
  }

  // Reserve-worst-case covers true-up-actual: when the reserved price did not wrap, no metering within
  // the reserved prompt and completion bounds costs more than the hold, and each is priced exactly.
  lemma {:induction false} ReserveCoversActual(pb: PriceBook, model: string, promptUpper: int, requestedMax: int,
                            promptTokens: int, completionTokens: int)
    requires UsableBook(pb) && model in pb
    requires Fits(pb[model], AtLeastZero(promptUpper), CompletionUpper(pb[model], requestedMax))
    requires promptTokens <= AtLeastZero(promptUpper)
    requires completionTokens <= CompletionUpper(pb[model], requestedMax)
    ensures ActualCost(pb, model, promptTokens, completionTokens).value
      == TruePrice(pb[model], AtLeastZero(promptTokens), AtLeastZero(completionTokens))
      <= ReserveCost(pb, model, promptUpper, requestedMax).value
  {
    SmallerRequestCostsNoMore(pb[model], AtLeastZero(promptTokens), AtLeastZero(completionTokens),
                              AtLeastZero(promptUpper), CompletionUpper(pb[model], requestedMax));
    assert Price(pb[model], promptTokens, AtLeastZero(completionTokens))
      == Price(pb[model], AtLeastZero(promptTokens), AtLeastZero(completionTokens));
    assert Price(pb[model], promptUpper, CompletionUpper(pb[model], requestedMax))
      == Price(pb[model], AtLeastZero(promptUpper), CompletionUpper(pb[model], requestedMax));
  }

  // The concrete failure outside that bound, at rates the configuration accepts: at 2^50 credits per thousand
  // prompt tokens, a body of 16 KiB wraps to nothing and reserves 3 credits, while one prompt token alone
  // costs over a trillion.
  lemma {:induction false} WrappedReserveHoldsTooLittle(pb: PriceBook, model: string)
    requires UsableBook(pb) && model in pb && pb[model] == ModelRate(0x4_0000_0000_0000, 1, 3000)
    ensures ReserveCost(pb, model, 0x4000, 0) == Some(3)
    ensures ActualCost(pb, model, 1, 0) == Some(1_125_899_906_843)
    ensures TruePrice(pb[model], 0x4000, 3000) > 3
  {
    assert 0x4000 * 0x4_0000_0000_0000 == TWO_64;
    assert Wrap(TWO_64) == 0 && Wrap(0) == 0;
    assert Wrap(3000) == 3000 && Wrap(4000) == 4000 && Wrap(3999) == 3999;
    var milli := 0x4_0000_0000_0000;
    WrapInRange(milli);
    WrapInRange(milli + 1000);
    WrapInRange(milli + 999);
    assert CeilDiv(milli, 1000) == 1_125_899_906_843;
    WrapInRange(1_125_899_906_843);
  }
}
