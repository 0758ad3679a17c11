/** The per-key credit accounting of proxy/credit_ledger.go: what each operation does to one account,
    and the mutex-protected object that performs it. */
module LedgerSpec {
  import opened Basics
  import opened Sums

  // The fingerprint of an API key, which names one prepaid account.
  datatype Key = Key(fingerprint: string)

  datatype Account = Account(
    allowance: int,
    allowanceVer: nat,
    ackWatermark: nat,
    confirmed: map<nat, int>,
    confirmedSum: int,
    confirmedHigh: nat,
    pending: int,
    reserved: int)
  {
    function Available(): int {
      allowance - reserved - pending - confirmedSum
    }
  }

  const ZERO_ACCOUNT := Account(0, 0, 0, map[], 0, 0, 0, 0)

  // What a resolved hold of size `hold` bills for a metered cost: the cost clamped to [0, hold].
  function Billed(actual: int, hold: int): int {
    if actual < 0 then 0 else if actual > hold then hold else actual
  }

  predicate Covers(a: Account, cost: int) {
    a.Available() >= AtLeastZero(cost)
  }

  function Reserved(a: Account, cost: int): Account
  {
    if Covers(a, cost) then a.(reserved := a.reserved + AtLeastZero(cost)) else a
  }

  function Released(a: Account, hold: int): Account {
    a.(reserved := a.reserved - hold)
  }

  function TruedUp(a: Account, hold: int, actual: int): Account {
    a.(reserved := a.reserved - hold, pending := a.pending + Billed(actual, hold))
  }

  function Confirmed(a: Account, cost: int, seqNo: nat): Account {
    if cost <= 0 || seqNo <= a.confirmedHigh then a
    else
      var b := a.(confirmedHigh := seqNo, pending := if a.pending >= cost then a.pending - cost else 0);
      if seqNo > a.ackWatermark
      then b.(confirmed := a.confirmed[seqNo := cost], confirmedSum := a.confirmedSum + cost)
      else b
  }

  function Above(m: map<nat, int>, watermark: nat): map<nat, int> {
    map s | s in m && s > watermark :: m[s]
  }

  function AtOrBelow(m: map<nat, int>, watermark: nat): map<nat, int> {
    map s | s in m && s <= watermark :: m[s]
  }

  ghost function Allowanced(a: Account, balance: int, watermark: nat, ver: nat): Account {
    if ver < a.allowanceVer then a
    else
      var b := a.(allowance := balance, allowanceVer := ver);
      if watermark > a.ackWatermark
      then b.(
        ackWatermark := watermark,
        confirmed := Above(a.confirmed, watermark),
        confirmedSum := a.confirmedSum - SumMap(AtOrBelow(a.confirmed, watermark)))
      else b
  }

  lemma {:induction false} SplitWithout(m: map<nat, int>, watermark: nat, k: nat)
    ensures Above(m - {k}, watermark) == Above(m, watermark) - {k}
    ensures AtOrBelow(m - {k}, watermark) == AtOrBelow(m, watermark) - {k}
  {
  }

  lemma {:induction false} SumSplitsAtWatermark(m: map<nat, int>, watermark: nat)
    ensures SumMap(m) == SumMap(Above(m, watermark)) + SumMap(AtOrBelow(m, watermark))
    decreases |m|
  {
    if m == map[] {
      assert Above(m, watermark) == map[] && AtOrBelow(m, watermark) == map[];
    } else {
      var k :| k in m;
      SumRemove(m, k);
      SplitWithout(m, watermark, k);
      SumSplitsAtWatermark(m - {k}, watermark);
      if k > watermark {
        SumRemove(Above(m, watermark), k);
        assert k !in AtOrBelow(m, watermark);
        assert AtOrBelow(m, watermark) - {k} == AtOrBelow(m, watermark);
      } else {
        SumRemove(AtOrBelow(m, watermark), k);
        assert k !in Above(m, watermark);
        assert Above(m, watermark) - {k} == Above(m, watermark);
      }
    }
  }
}

module CreditLedger {
  import opened Basics
  import opened Sums
  import opened LedgerSpec

  class KeyCredit {
    ghost const key: Key  // the key whose account this is
    var allowance: int
    var allowanceVer: nat
    var ackWatermark: nat
    var confirmed: map<nat, int>
    var confirmedSum: int
    var confirmedHigh: nat
    var pending: int
    var reserved: int

    function View(): Account
      reads this
    {
      Account(allowance, allowanceVer, ackWatermark, confirmed, confirmedSum, confirmedHigh, pending, reserved)
    }

    constructor (ghost key: Key)
      ensures View() == ZERO_ACCOUNT && this.key == key
    {
      this.key := key;
      allowance, allowanceVer, ackWatermark, confirmed := 0, 0, 0, map[];
      confirmedSum, confirmedHigh, pending, reserved := 0, 0, 0, 0;
    }

    // The critical sections of the ledger's operations, each on the one account it concerns.

    method Hold(cost: int) returns (ok: bool)
      modifies this
      ensures ok <==> old(allowance - reserved - pending - confirmedSum) >= if cost < 0 then 0 else cost
      ensures reserved == old(reserved) + if ok && cost > 0 then cost else 0
      ensures ok == Covers(old(View()), cost)
      ensures View() == Reserved(old(View()), cost)
    {
      var hold := cost;
      if hold < 0 {
        hold := 0;
      }
      if View().Available() < hold {
        return false;
      }
      reserved := reserved + hold;
      return true;
    }

    method Unhold(hold: nat)
      modifies this
      ensures View() == Released(old(View()), hold)
    {
      reserved := reserved - hold;
    }

    method Bill(hold: nat, actual: int)
      modifies this
      ensures old(pending) <= pending <= old(pending) + hold
      ensures 0 <= actual <= hold ==> pending == old(pending) + actual
      ensures actual > hold ==> pending == old(pending) + hold
      ensures actual < 0 ==> pending == old(pending)
      ensures View() == TruedUp(old(View()), hold, actual)
    {
      var billed := actual;
      if billed < 0 {
        billed := 0;
      }
      if billed > hold {
        billed := hold;
      }
      reserved := reserved - hold;
      pending := pending + billed;
    }

    method Confirm(cost: int, seqNo: nat) returns (skipped: bool)
      requires cost > 0
      modifies this
      ensures skipped == (seqNo <= old(confirmedHigh))
      ensures View() == Confirmed(old(View()), cost, seqNo)
    {
      if seqNo <= confirmedHigh {
        return true;
      }
      confirmedHigh := seqNo;
      if pending >= cost {
        pending := pending - cost;
      } else {
        pending := 0;
      }
      if seqNo > ackWatermark {
        confirmed := confirmed[seqNo := cost];
        confirmedSum := confirmedSum + cost;
      }
      return false;
    }

    // Visits the confirmed debits in no particular order, deleting those at or below `watermark`.
    method AgeOut(watermark: nat)
      modifies this`confirmed, this`confirmedSum
      ensures confirmed == Above(old(confirmed), watermark)
      ensures confirmedSum == old(confirmedSum) - SumMap(AtOrBelow(old(confirmed), watermark))
    {
      var unseen := confirmed.Keys;
      SumSplitsAtWatermark(confirmed, watermark);
      ghost var drift := confirmedSum - SumMap(confirmed);
      while unseen != {}
        invariant unseen <= old(confirmed).Keys
        invariant forall s :: s in confirmed <==> s in old(confirmed) && (s in unseen || s > watermark)
        invariant forall s :: s in confirmed ==> confirmed[s] == old(confirmed)[s]
        invariant confirmedSum == SumMap(confirmed) + drift
        decreases unseen
      {
        var s :| s in unseen;
        unseen := unseen - {s};
        if s <= watermark {
          SumRemove(confirmed, s);
          confirmedSum := confirmedSum - confirmed[s];
          confirmed := confirmed - {s};
        }
      }
      assert confirmed == Above(old(confirmed), watermark);
    }

    method SetAllowance(balance: int, watermark: nat, ver: nat)
      modifies this
      ensures ver < old(allowanceVer) ==> View() == old(View())
      ensures ver >= old(allowanceVer) ==> allowanceVer == ver && allowance == balance
      ensures ackWatermark == if ver >= old(allowanceVer) && watermark > old(ackWatermark) then watermark
                              else old(ackWatermark)
      ensures View() == Allowanced(old(View()), balance, watermark, ver)
    {
      if ver < allowanceVer {
        return;
      }
      allowanceVer := ver;
      allowance := balance;
      if watermark > ackWatermark {
        AgeOut(watermark);
        ackWatermark := watermark;
      }
    }
  }

  // A hold placed by Reserve. `key` and `cost` never change; `done` latches the first resolution.
  class Reservation {
    const ledger: Ledger
    const key: Key
    const cost: nat
    var done: bool

    constructor (ledger: Ledger, key: Key, cost: nat)
      ensures this.ledger == ledger && this.key == key && this.cost == cost && !done
    {
      this.ledger, this.key, this.cost, done := ledger, key, cost, false;
    }

    // Static, because a denied Reserve hands its caller a nil hold that may still be released.
    static method Release(r: Reservation?)
      requires r != null ==> r.ledger.Valid()
      modifies if r == null then {} else {r, r.ledger} + r.ledger.repr
      ensures r != null ==> r.ledger.Valid() && fresh(r.ledger.repr - old(r.ledger.repr)) && r.done
      ensures r != null ==> r.ledger.skips == old(r.ledger.skips)
      ensures r != null && old(r.done) ==> forall key :: r.ledger.At(key) == old(r.ledger.At(key))
      ensures r != null && !old(r.done) ==>
                r.ledger.Only(r.key, Released(old(r.ledger.At(r.key)), r.cost))
    {
      if r == null || r.done {
        return;
      }
      r.done := true;
      assert forall key :: r.ledger.At(key) == old(r.ledger.At(key));
      var k := r.ledger.KeyLocked(r.key);
      k.Unhold(r.cost);
    }

    static method TrueUp(r: Reservation?, actual: int) returns (ok: bool)
      requires r != null ==> r.ledger.Valid()
      modifies if r == null then {} else {r, r.ledger} + r.ledger.repr
      ensures r == null ==> !ok
      ensures r != null ==> r.ledger.Valid() && fresh(r.ledger.repr - old(r.ledger.repr)) && r.done
      ensures r != null ==> r.ledger.skips == old(r.ledger.skips) && ok == !old(r.done)
      ensures r != null && !ok ==> forall key :: r.ledger.At(key) == old(r.ledger.At(key))
      ensures r != null && ok ==>
                r.ledger.Only(r.key, TruedUp(old(r.ledger.At(r.key)), r.cost, actual))
    {
      if r == null || r.done {
        return false;
      }
      r.done := true;
      assert forall key :: r.ledger.At(key) == old(r.ledger.At(key));
      var k := r.ledger.KeyLocked(r.key);
      k.Bill(r.cost, actual);
      return true;
    }
  }

  class Ledger {
    var keys: map<Key, KeyCredit>
    var skips: int
    ghost var repr: set<KeyCredit>  // the objects `keys` points to

    // Every account object belongs to one key.
    ghost predicate Valid()
      reads this, repr
    {
      forall key :: key in keys ==> keys[key] in repr && keys[key].key == key
    }

    // The account a key has, or the zero account it would be given on first use.
    ghost function At(key: Key): Account
      requires Valid()
      reads this, repr
    {
      if key in keys then keys[key].View() else ZERO_ACCOUNT
    }

    // After an operation on `key`: its account reads `now` and every other account reads as before.
    twostate predicate Only(key: Key, now: Account)
      requires old(Valid()) && Valid()
      reads this, repr
    {
      && At(key) == now
      && (forall other :: other != key ==> At(other) == old(At(other)))
    }

    constructor ()
      ensures Valid() && (forall key :: At(key) == ZERO_ACCOUNT) && skips == 0
    {
      keys, skips, repr := map[], 0, {};
    }

    method KeyLocked(key: Key) returns (k: KeyCredit)
      requires Valid()
      modifies this`keys, this`repr
      ensures Valid() && fresh(repr - old(repr)) && key in keys && keys[key] == k
      ensures k in old(repr) || fresh(k)
      ensures forall other :: At(other) == old(At(other))
    {
      if key in keys {
        k := keys[key];
      } else {
        k := new KeyCredit(key);
        keys, repr := keys[key := k], repr + {k};
      }
    }

    method Reserve(key: Key, cost: int) returns (r: Reservation?, ok: bool)
      requires Valid()
      modifies this`keys, this`repr, repr
      ensures Valid() && fresh(repr - old(repr))
      ensures var a := old(At(key));
        ok <==> a.allowance - a.reserved - a.pending - a.confirmedSum >= if cost < 0 then 0 else cost
      ensures ok == Covers(old(At(key)), cost)
      ensures Only(key, Reserved(old(At(key)), cost))
      ensures At(key).reserved == old(At(key)).reserved + if ok && cost > 0 then cost else 0
      ensures !ok ==> r == null
      ensures ok ==> r != null && fresh(r) && r.ledger == this && r.key == key && !r.done
      ensures ok ==> r.cost == (if cost < 0 then 0 else cost) == AtLeastZero(cost)
    {
      ok := HoldOn(key, cost);
      r := null;
      if ok {
        r := new Reservation(this, key, AtLeastZero(cost));
      }
    }

    // Reserve's check and hold on the key's account.
    method HoldOn(key: Key, cost: int) returns (ok: bool)
      requires Valid()
      modifies this`keys, this`repr, repr
      ensures Valid() && fresh(repr - old(repr))
      ensures ok == Covers(old(At(key)), cost)
      ensures Only(key, Reserved(old(At(key)), cost))
    {
      var k := KeyLocked(key);
      ok := k.Hold(cost);
    }

    method Confirm(key: Key, cost: int, seqNo: nat)
      requires Valid()
      modifies this, repr
      ensures Valid() && fresh(repr - old(repr))
      ensures Only(key, Confirmed(old(At(key)), cost, seqNo))
      ensures skips == old(skips) + if cost > 0 && seqNo <= old(At(key)).confirmedHigh then 1 else 0
    {
      if cost <= 0 {
        return;
      }
      var k := KeyLocked(key);
      var skipped := k.Confirm(cost, seqNo);
      if skipped {
        skips := skips + 1;
      }
    }

    method SetAllowance(key: Key, balance: int, watermark: nat, ver: nat)
      requires Valid()
      modifies this`keys, this`repr, repr
      ensures Valid() && fresh(repr - old(repr))
      ensures Only(key, Allowanced(old(At(key)), balance, watermark, ver))
    {
      var k := KeyLocked(key);
      k.SetAllowance(balance, watermark, ver);
    }

    method Available(key: Key) returns (available: int)
      requires Valid()
      modifies this`keys, this`repr
      ensures Valid() && fresh(repr - old(repr)) && available == old(At(key)).Available()
      ensures forall other :: At(other) == old(At(other))
    {
      var k := KeyLocked(key);
      available := k.View().Available();
    }
  }
}
