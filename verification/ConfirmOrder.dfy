/** Confirming pending debits in any order (proxy/credit_ledger.go): what reaches the confirmed set, what stays
    pending for good, and what that does to the balance. */
module ConfirmOrder {
  import opened Sums
  import opened LedgerSpec
  import opened LedgerRuns

  // Confirm, called once for each debit in the order given.
  function ConfirmedAll(a: Account, ds: seq<Debit>): Account {
    if ds == [] then a
    else Confirmed(ConfirmedAll(a, ds[..|ds| - 1]), ds[|ds| - 1].cost, ds[|ds| - 1].seqNo)
  }

  // Debits that are pending and new: each costs something, none is at or below what is confirmed already,
  // and what is pending covers them all.
  ghost predicate PendingDebits(a: Account, ds: seq<Debit>) {
    && Cost(ds) <= a.pending
    && forall i :: 0 <= i < |ds| ==> ds[i].cost > 0 && ds[i].seqNo > a.confirmedHigh
  }

  // The i-th debit has a seq above every one before it.
  ghost predicate IsMaximum(ds: seq<Debit>, i: nat)
    requires i < |ds|
  {
    forall j :: 0 <= j < i ==> ds[j].seqNo < ds[i].seqNo
  }

  // The summed cost of the left-to-right maxima.
  ghost function MaximaCost(ds: seq<Debit>): nat {
    if ds == [] then 0
    else
      var n := |ds| - 1;
      MaximaCost(ds[..n]) + if IsMaximum(ds, n) then ds[n].cost else 0
  }

  lemma {:induction false} MaximaCostBounded(ds: seq<Debit>)
    ensures MaximaCost(ds) <= Cost(ds)
  {
    if ds != [] {
      MaximaCostBounded(ds[..|ds| - 1]);
    }
  }

  lemma {:induction false} AscendingPrefix(ds: seq<Debit>, n: nat)
    requires n < |ds|
    ensures Ascending(ds[..n + 1]) <==> Ascending(ds[..n]) && IsMaximum(ds[..n + 1], n)
  {
    var all, init := ds[..n + 1], ds[..n];
    assert forall i :: 0 <= i < n ==> all[i] == init[i];
    if Ascending(init) && IsMaximum(all, n) {
      forall i, j | 0 <= i < j < |all|
        ensures all[i].seqNo < all[j].seqNo
      {
        assert j < n ==> init[i].seqNo < init[j].seqNo;
      }
    }
  }

  // All of it is in the maxima exactly when the order is the log's.
  lemma {:induction false} AllMaximaIffAscending(ds: seq<Debit>)
    requires forall i :: 0 <= i < |ds| ==> ds[i].cost > 0
    ensures MaximaCost(ds) == Cost(ds) <==> Ascending(ds)
  {
    if ds != [] {
      var n := |ds| - 1;
      AllMaximaIffAscending(ds[..n]);
      MaximaCostBounded(ds[..n]);
      AscendingPrefix(ds, n);
      assert ds[..n + 1] == ds;
    }
  }

  // The high-water mark after any order is the highest seq seen.
  lemma {:induction false} HighAfter(a: Account, ds: seq<Debit>)
    requires forall i :: 0 <= i < |ds| ==> ds[i].cost > 0 && ds[i].seqNo > a.confirmedHigh
    ensures var high := ConfirmedAll(a, ds).confirmedHigh;
      && (ds == [] ==> high == a.confirmedHigh)
      && (forall i :: 0 <= i < |ds| ==> ds[i].seqNo <= high)
      && (ds != [] ==> exists i :: 0 <= i < |ds| && ds[i].seqNo == high)
  {
    if ds != [] {
      var n := |ds| - 1;
      var init := ds[..n];
      HighAfter(a, init);
      var high := ConfirmedAll(a, init).confirmedHigh;
      if ds[n].seqNo > high || init == [] {
        assert ds[n].seqNo == ConfirmedAll(a, ds).confirmedHigh;
      } else {
        var i :| 0 <= i < n && init[i].seqNo == high;
        assert ds[i].seqNo == high;
      }
    }
  }

  // Confirm takes a debit exactly when it is a left-to-right maximum.
  lemma {:induction false} TakenIffMaximum(a: Account, ds: seq<Debit>)
    requires ds != [] && forall i :: 0 <= i < |ds| ==> ds[i].cost > 0 && ds[i].seqNo > a.confirmedHigh
    ensures var n := |ds| - 1; ds[n].seqNo > ConfirmedAll(a, ds[..n]).confirmedHigh <==> IsMaximum(ds, n)
  {
    var n := |ds| - 1;
    var init := ds[..n];
    HighAfter(a, init);
    assert forall i :: 0 <= i < n ==> init[i] == ds[i];
    if IsMaximum(ds, n) && init != [] {
      var i :| 0 <= i < n && init[i].seqNo == ConfirmedAll(a, init).confirmedHigh;
      assert ds[i].seqNo < ds[n].seqNo;
    }
  }

  // In any order, pending falls by exactly the cost of the left-to-right maxima.
  lemma {:induction false} PendingAfterAnyOrder(a: Account, ds: seq<Debit>)
    requires PendingDebits(a, ds)
    ensures ConfirmedAll(a, ds).pending == a.pending - MaximaCost(ds)
  {
    if ds != [] {
      PendingAfterAnyOrder(a, ds[..|ds| - 1]);
      MaximaCostBounded(ds[..|ds| - 1]);
      TakenIffMaximum(a, ds);
    }
  }

  // So everything leaves pending exactly when the debits are confirmed in log order.
  lemma {:induction false} AllConfirmedIffInOrder(a: Account, ds: seq<Debit>)
    requires PendingDebits(a, ds)
    ensures ConfirmedAll(a, ds).pending == a.pending - Cost(ds) <==> Ascending(ds)
  {
    PendingAfterAnyOrder(a, ds);
    AllMaximaIffAscending(ds);
  }

  lemma {:induction false} ConfirmKeepsFaithful(a: Account, cost: nat, seqNo: nat)
    requires SumFaithful(a)
    ensures SumFaithful(Confirmed(a, cost, seqNo))
  {
    if cost > 0 && seqNo > a.confirmedHigh {
      SumInsert(a.confirmed, seqNo, cost);
    }
  }

  // Once a snapshot nets a debit, confirming it gives back exactly its cost, which pending would
  // otherwise charge a second time.
  lemma {:induction false} ConfirmGivesBackNetted(a: Account, cost: nat, seqNo: nat, balance: int,
      watermark: nat, ver: nat)
    requires SumFaithful(a) && 0 < cost <= a.pending && a.confirmedHigh < seqNo <= watermark
    requires ver >= a.allowanceVer && watermark > a.ackWatermark
    ensures Allowanced(Confirmed(a, cost, seqNo), balance, watermark, ver).Available()
      == Allowanced(a, balance, watermark, ver).Available() + cost
  {
    assert seqNo !in a.confirmed;
    if seqNo > a.ackWatermark {
      assert AtOrBelow(a.confirmed[seqNo := cost], watermark) == AtOrBelow(a.confirmed, watermark)[seqNo := cost];
      SumInsert(AtOrBelow(a.confirmed, watermark), seqNo, cost);
    }
  }

  // A snapshot that nets every one of the debits.
  ghost predicate NetsAll(a: Account, ds: seq<Debit>, watermark: nat, ver: nat) {
    && watermark > a.ackWatermark && ver >= a.allowanceVer
    && forall i :: 0 <= i < |ds| ==> ds[i].seqNo <= watermark
  }

  lemma {:induction false} ConfirmedAllKeeps(a: Account, ds: seq<Debit>)
    requires SumFaithful(a)
    ensures var r := ConfirmedAll(a, ds);
      SumFaithful(r) && r.ackWatermark == a.ackWatermark && r.allowanceVer == a.allowanceVer
  {
    if ds != [] {
      ConfirmedAllKeeps(a, ds[..|ds| - 1]);
      ConfirmKeepsFaithful(ConfirmedAll(a, ds[..|ds| - 1]), ds[|ds| - 1].cost, ds[|ds| - 1].seqNo);
    }
  }

  lemma {:induction false} BalanceAfterAnyOrder(a: Account, ds: seq<Debit>, balance: int, watermark: nat, ver: nat)
    requires PendingDebits(a, ds) && SumFaithful(a) && NetsAll(a, ds, watermark, ver)
    ensures Allowanced(ConfirmedAll(a, ds), balance, watermark, ver).Available()
      == Allowanced(a, balance, watermark, ver).Available() + MaximaCost(ds)
  {
    if ds != [] {
      var init, last := ds[..|ds| - 1], ds[|ds| - 1];
      BalanceAfterAnyOrder(a, init, balance, watermark, ver);
      ConfirmedAllKeeps(a, init);
      PendingAfterAnyOrder(a, init);
      MaximaCostBounded(init);
      TakenIffMaximum(a, ds);
      if IsMaximum(ds, |ds| - 1) {
        ConfirmGivesBackNetted(ConfirmedAll(a, init), last.cost, last.seqNo, balance, watermark, ver);
      }
    }
  }

  // Under a snapshot that nets them all the balance is right exactly when the debits were confirmed in log
  // order, and otherwise too low by the cost of those that were not left-to-right maxima.
  lemma {:induction false} BalanceExactIffInOrder(a: Account, ds: seq<Debit>, balance: int, watermark: nat, ver: nat)
    requires PendingDebits(a, ds) && SumFaithful(a) && NetsAll(a, ds, watermark, ver)
    ensures var right := Allowanced(a, balance, watermark, ver).Available() + Cost(ds);
      var got := Allowanced(ConfirmedAll(a, ds), balance, watermark, ver).Available();
      got == right - (Cost(ds) - MaximaCost(ds)) <= right && (got == right <==> Ascending(ds))
  {
    BalanceAfterAnyOrder(a, ds, balance, watermark, ver);
    MaximaCostBounded(ds);
    AllMaximaIffAscending(ds);
  }

  // Two pending debits confirmed in the wrong order: the earlier is taken for a replay and strands.
  lemma {:induction false} OutOfOrderConfirmStrands(a: Account, d: Debit, e: Debit, balance: int,
      watermark: nat, ver: nat)
    requires PendingDebits(a, [e, d]) && SumFaithful(a) && NetsAll(a, [e, d], watermark, ver) && d.seqNo < e.seqNo
    ensures Allowanced(ConfirmedAll(a, [e, d]), balance, watermark, ver).Available()
      == Allowanced(a, balance, watermark, ver).Available() + e.cost
  {
    BalanceAfterAnyOrder(a, [e, d], balance, watermark, ver);
    assert [e, d][..1] == [e] && [e][..0] == [];
    assert MaximaCost([e]) == MaximaCost([]) + e.cost;
    assert !IsMaximum([e, d], 1);
  }
}
