/** Runs of the credit ledger together with the debit log and the home ledger that feed it.

    Home nets every debit whose log seq is at or below a snapshot's watermark into the snapshot's
    balance; the pool confirms logged debits in log order, possibly re-reading old entries; snapshots
    may be delivered late, repeatedly or out of order.  Each step runs the account function of
    LedgerSpec beside a history of what really happened, and the main theorem reads the spendable
    balance off that history. */
module LedgerRuns {
  import opened Basics
  import opened Sums
  import opened LedgerSpec

  // A billable event in the log: the seq it was given and the clamped cost it was trued up at.
  datatype Debit = Debit(seqNo: nat, cost: nat)

  // A snapshot home has issued. `grants` is the ideal account's credit behind `balance`.
  datatype Snapshot = Snapshot(ver: nat, grants: int, balance: int, watermark: nat)

  // ---- sums over log entries ----

  ghost function Cost(l: seq<Debit>): nat {
    if l == [] then 0 else Cost(l[..|l| - 1]) + l[|l| - 1].cost
  }

  ghost function CostUpTo(l: seq<Debit>, w: nat): nat {
    if l == [] then 0
    else CostUpTo(l[..|l| - 1], w) + if l[|l| - 1].seqNo <= w then l[|l| - 1].cost else 0
  }

  ghost function CostPast(l: seq<Debit>, w: nat): nat {
    if l == [] then 0
    else CostPast(l[..|l| - 1], w) + if l[|l| - 1].seqNo > w then l[|l| - 1].cost else 0
  }

  lemma {:induction false} CostSplits(l: seq<Debit>, w: nat)
    ensures Cost(l) == CostUpTo(l, w) + CostPast(l, w)
  {
    if l != [] {
      CostSplits(l[..|l| - 1], w);
    }
  }

  lemma {:induction false} CostConcat(l: seq<Debit>, m: seq<Debit>, w: nat)
    ensures Cost(l + m) == Cost(l) + Cost(m)
    ensures CostUpTo(l + m, w) == CostUpTo(l, w) + CostUpTo(m, w)
    ensures CostPast(l + m, w) == CostPast(l, w) + CostPast(m, w)
  {
    if m == [] {
      assert l + m == l;
    } else {
      CostConcat(l, m[..|m| - 1], w);
      assert (l + m)[..|l + m| - 1] == l + m[..|m| - 1];
    }
  }

  lemma {:induction false} NoCostUpTo(l: seq<Debit>, w: nat)
    requires forall i :: 0 <= i < |l| ==> l[i].seqNo > w
    ensures CostUpTo(l, w) == 0
  {
    if l != [] {
      NoCostUpTo(l[..|l| - 1], w);
    }
  }

  // Nothing counts up to w exactly when every entry there is free of charge.
  lemma {:induction false} CostUpToZero(l: seq<Debit>, w: nat)
    ensures CostUpTo(l, w) == 0 <==> forall i :: 0 <= i < |l| && l[i].seqNo <= w ==> l[i].cost == 0
  {
    if l != [] {
      var init := l[..|l| - 1];
      CostUpToZero(init, w);
      assert forall i :: 0 <= i < |init| ==> init[i] == l[i];
      assert l[|l| - 1].seqNo <= w && l[|l| - 1].cost > 0 ==> CostUpTo(l, w) > 0;
      if CostUpTo(l, w) == 0 {
        assert CostUpTo(init, w) == 0;
        forall i | 0 <= i < |l| && l[i].seqNo <= w
          ensures l[i].cost == 0
        {
          if i < |init| {
            assert init[i].cost == 0;
          }
        }
      } else if CostUpTo(init, w) != 0 {
        var i :| 0 <= i < |init| && init[i].seqNo <= w && init[i].cost != 0;
        assert l[i] == init[i];
      }
    }
  }

  // The `confirmed` map an account holds once `l` is confirmed and watermark w applied.
  ghost function ConfirmedMap(l: seq<Debit>, w: nat): map<nat, int> {
    if l == [] then map[]
    else
      var last := l[|l| - 1];
      var m := ConfirmedMap(l[..|l| - 1], w);
      if last.cost > 0 && last.seqNo > w then m[last.seqNo := last.cost] else m
  }

  ghost predicate Ascending(l: seq<Debit>) {
    forall i, j :: 0 <= i < j < |l| ==> l[i].seqNo < l[j].seqNo
  }

  lemma {:induction false} ConfirmedMapKeys(l: seq<Debit>, w: nat)
    ensures forall s :: s in ConfirmedMap(l, w) ==> w < s && exists i :: 0 <= i < |l| && l[i].seqNo == s
  {
    if l != [] {
      var init := l[..|l| - 1];
      ConfirmedMapKeys(init, w);
      forall s | s in ConfirmedMap(l, w)
        ensures w < s && exists i :: 0 <= i < |l| && l[i].seqNo == s
      {
        if s in ConfirmedMap(init, w) {
          var i :| 0 <= i < |init| && init[i].seqNo == s;
          assert l[i].seqNo == s;
        } else {
          assert l[|l| - 1].seqNo == s;
        }
      }
    }
  }

  lemma {:induction false} ConfirmedMapSum(l: seq<Debit>, w: nat)
    requires Ascending(l)
    ensures SumMap(ConfirmedMap(l, w)) == CostPast(l, w)
  {
    if l != [] {
      var init, last := l[..|l| - 1], l[|l| - 1];
      ConfirmedMapSum(init, w);
      ConfirmedMapKeys(init, w);
      assert last.seqNo !in ConfirmedMap(init, w);
      SumInsert(ConfirmedMap(init, w), last.seqNo, last.cost);
    }
  }

  // Ageing out to a later watermark leaves what confirming under it would have left.
  lemma {:induction false} AgedConfirmedMap(l: seq<Debit>, w: nat, w': nat)
    requires w <= w'
    ensures Above(ConfirmedMap(l, w), w') == ConfirmedMap(l, w')
  {
    if l != [] {
      AgedConfirmedMap(l[..|l| - 1], w, w');
    }
  }

  // ---- one key's account beside its history ----

  datatype KeyState = KeyState(
    acct: Account,
    nextId: nat,            // holds handed out so far
    live: map<nat, int>,      // unresolved holds, by hold id
    unlogged: map<nat, int>,  // bills trued up and not yet in the log, by hold id
    logged: seq<Debit>,       // this key's debits in log order
    confirmedCount: nat,      // how many of them Confirm has seen
    issued: seq<Snapshot>,    // home's snapshots of this key, by rising version
    applied: int)             // index of the last snapshot the ledger accepted, -1 before the first
  {
    ghost function Grants(): int {
      if 0 <= applied < |issued| then issued[applied].grants else 0
    }

    // Debits home has already netted into the balance and Confirm has not reached yet.
    ghost function NettedUnconfirmed(): nat
      requires confirmedCount <= |logged|
    {
      CostUpTo(logged[confirmedCount..], acct.ackWatermark)
    }

    // What a single account with no log, no snapshots and no delays would have left.
    ghost function Ideal(): int {
      Grants() - SumMap(live) - SumMap(unlogged) - Cost(logged)
    }
  }

  const FRESH := KeyState(ZERO_ACCOUNT, 0, map[], map[], [], 0, [], -1)

  datatype Op =
    | Reserve(cost: int)
    | Release(id: nat)
    | TrueUp(id: nat, actual: int)
    | Log(id: nat)
    | ConfirmNext
    | ReplayConfirm(index: nat)
    | Issue(ver: nat, grants: int, watermark: nat)
    | Deliver(index: nat)

  // Home issues a snapshot: a version above every earlier one, a watermark no lower than before and
  // no higher than the log's head.
  ghost predicate CanIssue(k: KeyState, head: nat, ver: nat, watermark: nat) {
    && watermark <= head
    && ver > 0
    && (k.issued != [] ==> ver > k.issued[|k.issued| - 1].ver && watermark >= k.issued[|k.issued| - 1].watermark)
  }

  ghost function Step(k: KeyState, head: nat, op: Op): KeyState {
    match op
    case Reserve(cost) =>
      if Covers(k.acct, cost)
      then k.(acct := Reserved(k.acct, cost), nextId := k.nextId + 1, live := k.live[k.nextId := AtLeastZero(cost)])
      else k
    case Release(id) =>
      if id in k.live
      then k.(acct := Released(k.acct, k.live[id]), live := k.live - {id})
      else k  // already resolved: the done latch makes it a no-op
    case TrueUp(id, actual) =>
      if id in k.live
      then k.(
        acct := TruedUp(k.acct, k.live[id], actual),
        live := k.live - {id},
        unlogged := k.unlogged[id := Billed(actual, k.live[id])])
      else k
    case Log(id) =>
      if id in k.unlogged && k.unlogged[id] >= 0
      then k.(logged := k.logged + [Debit(head + 1, k.unlogged[id])], unlogged := k.unlogged - {id})
      else k
    case ConfirmNext =>
      if k.confirmedCount < |k.logged|
      then
        var d := k.logged[k.confirmedCount];
        k.(acct := Confirmed(k.acct, d.cost, d.seqNo), confirmedCount := k.confirmedCount + 1)
      else k
    case ReplayConfirm(i) =>
      if i < k.confirmedCount && i < |k.logged|
      then k.(acct := Confirmed(k.acct, k.logged[i].cost, k.logged[i].seqNo))
      else k
    case Issue(ver, grants, watermark) =>
      if CanIssue(k, head, ver, watermark)
      then k.(issued := k.issued + [Snapshot(ver, grants, grants - CostUpTo(k.logged, watermark), watermark)])
      else k
    case Deliver(i) =>
      if i < |k.issued|
      then
        var s := k.issued[i];
        k.(acct := Allowanced(k.acct, s.balance, s.watermark, s.ver),
           applied := if s.ver < k.acct.allowanceVer then k.applied else i)
      else k
  }

  ghost predicate HoldsInv(k: KeyState) {
    && (forall id :: id in k.live ==> id < k.nextId && k.live[id] >= 0)
    && (forall id :: id in k.unlogged ==> id < k.nextId && id !in k.live && k.unlogged[id] >= 0)
    && k.acct.reserved == SumMap(k.live)
    && k.confirmedCount <= |k.logged|
    && k.acct.pending == SumMap(k.unlogged) + Cost(k.logged[k.confirmedCount..])
  }

  ghost predicate LogInv(k: KeyState, head: nat) {
    && Ascending(k.logged)
    && (forall i :: 0 <= i < |k.logged| ==> 0 < k.logged[i].seqNo <= head)
    && k.confirmedCount <= |k.logged|
    && (forall i :: 0 <= i < k.confirmedCount && k.logged[i].cost > 0 ==> k.logged[i].seqNo <= k.acct.confirmedHigh)
    && (forall i :: k.confirmedCount <= i < |k.logged| ==> k.logged[i].seqNo > k.acct.confirmedHigh)
    && k.acct.confirmedHigh <= head
    && k.acct.confirmed == ConfirmedMap(k.logged[..k.confirmedCount], k.acct.ackWatermark)
    && k.acct.confirmedSum == CostPast(k.logged[..k.confirmedCount], k.acct.ackWatermark)
  }

  ghost predicate SnapshotsInv(k: KeyState, head: nat) {
    && (forall i :: 0 <= i < |k.issued| ==>
          && k.issued[i].ver > 0
          && k.issued[i].watermark <= head
          && k.issued[i].balance == k.issued[i].grants - CostUpTo(k.logged, k.issued[i].watermark))
    && (forall i, j :: 0 <= i < j < |k.issued| ==>
          k.issued[i].ver < k.issued[j].ver && k.issued[i].watermark <= k.issued[j].watermark)
    && -1 <= k.applied < |k.issued|
    && if k.applied == -1
       then k.acct.allowance == 0 && k.acct.allowanceVer == 0 && k.acct.ackWatermark == 0
       else
         && k.acct.allowance == k.issued[k.applied].balance
         && k.acct.allowanceVer == k.issued[k.applied].ver
         && k.acct.ackWatermark == k.issued[k.applied].watermark
  }

  ghost predicate KeyInv(k: KeyState, head: nat) {
    HoldsInv(k) && LogInv(k, head) && SnapshotsInv(k, head)
  }

  lemma {:induction false} UntouchedInv(k: KeyState, head: nat)
    requires k.acct == ZERO_ACCOUNT && k.live == map[] && k.unlogged == map[]
    requires k.logged == [] && k.confirmedCount == 0 && k.issued == [] && k.applied == -1
    ensures KeyInv(k, head)
  {
    assert k.logged[..0] == [] && k.logged[0..] == [];
  }

  function NewHead(head: nat, k: KeyState, k': KeyState): nat {
    if |k'.logged| > |k.logged| then head + 1 else head
  }

  lemma {:induction false} HoldOpKeepsInv(k: KeyState, head: nat, op: Op)
    requires KeyInv(k, head) && (op.Reserve? || op.Release? || op.TrueUp?)
    ensures KeyInv(Step(k, head, op), head)
  {
    match op
    case Reserve(cost) => SumInsert(k.live, k.nextId, AtLeastZero(cost));
    case Release(id) => if id in k.live { SumRemove(k.live, id); }
    case TrueUp(id, actual) =>
      if id in k.live {
        SumRemove(k.live, id);
        SumInsert(k.unlogged, id, Billed(actual, k.live[id]));
      }
  }

  lemma {:induction false} LogKeepsHolds(k: KeyState, head: nat, id: nat)
    requires HoldsInv(k) && id in k.unlogged
    ensures HoldsInv(Step(k, head, Log(id)))
  {
    var k' := Step(k, head, Log(id));
    var d := Debit(head + 1, k.unlogged[id]);
    SumRemove(k.unlogged, id);
    assert k'.logged[k.confirmedCount..] == k.logged[k.confirmedCount..] + [d];
    CostConcat(k.logged[k.confirmedCount..], [d], 0);
    assert Cost([d]) == Cost([]) + d.cost;
  }

  lemma {:induction false} LogKeepsLog(k: KeyState, head: nat, id: nat)
    requires LogInv(k, head) && id in k.unlogged
    ensures LogInv(Step(k, head, Log(id)), head + 1)
  {
    var k' := Step(k, head, Log(id));
    assert k'.logged[..k.confirmedCount] == k.logged[..k.confirmedCount];
  }

  lemma {:induction false} LogKeepsSnapshots(k: KeyState, head: nat, id: nat)
    requires SnapshotsInv(k, head) && id in k.unlogged && k.unlogged[id] >= 0
    ensures SnapshotsInv(Step(k, head, Log(id)), head + 1)
  {
    var k' := Step(k, head, Log(id));
    var d := Debit(head + 1, k.unlogged[id]);
    forall i | 0 <= i < |k.issued|
      ensures CostUpTo(k'.logged, k.issued[i].watermark) == CostUpTo(k.logged, k.issued[i].watermark)
    {
      CostConcat(k.logged, [d], k.issued[i].watermark);
      NoCostUpTo([d], k.issued[i].watermark);
    }
  }

  lemma {:induction false} LogKeepsInv(k: KeyState, head: nat, id: nat)
    requires KeyInv(k, head) && id in k.unlogged
    ensures KeyInv(Step(k, head, Log(id)), head + 1)
  {
    LogKeepsHolds(k, head, id);
    LogKeepsLog(k, head, id);
    LogKeepsSnapshots(k, head, id);
  }

  lemma {:induction false} ConfirmKeepsHolds(k: KeyState, head: nat)
    requires HoldsInv(k) && k.confirmedCount < |k.logged|
    requires k.logged[k.confirmedCount].seqNo > k.acct.confirmedHigh
    ensures HoldsInv(Step(k, head, ConfirmNext))
  {
    var c, d := k.confirmedCount, k.logged[k.confirmedCount];
    assert k.logged[c..] == [d] + k.logged[c + 1..];
    CostConcat([d], k.logged[c + 1..], 0);
    assert Cost([d]) == Cost([]) + d.cost;
    SumNonNegative(k.unlogged);
  }

  lemma {:induction false} ConfirmKeepsLog(k: KeyState, head: nat)
    requires LogInv(k, head) && k.confirmedCount < |k.logged|
    ensures LogInv(Step(k, head, ConfirmNext), head)
  {
    var c := k.confirmedCount;
    assert k.logged[..c + 1][..c] == k.logged[..c];
    assert k.logged[..c + 1][c] == k.logged[c];
  }

  lemma {:induction false} ConfirmKeepsInv(k: KeyState, head: nat)
    requires KeyInv(k, head) && k.confirmedCount < |k.logged|
    ensures KeyInv(Step(k, head, ConfirmNext), head)
  {
    ConfirmKeepsHolds(k, head);
    ConfirmKeepsLog(k, head);
  }

  // An at-least-once re-read of an already confirmed entry changes nothing.
  lemma {:induction false} ReplayIsNoOp(k: KeyState, head: nat, i: nat)
    requires KeyInv(k, head) && i < k.confirmedCount
    ensures Step(k, head, ReplayConfirm(i)) == k
  {
  }

  lemma {:induction false} IssueKeepsSnapshots(k: KeyState, head: nat, ver: nat, grants: int, watermark: nat)
    requires SnapshotsInv(k, head) && CanIssue(k, head, ver, watermark)
    ensures SnapshotsInv(Step(k, head, Issue(ver, grants, watermark)), head)
  {
    var k' := Step(k, head, Issue(ver, grants, watermark));
    assert forall i :: 0 <= i < |k.issued| ==> k'.issued[i] == k.issued[i];
  }

  lemma {:induction false} IssueKeepsInv(k: KeyState, head: nat, ver: nat, grants: int, watermark: nat)
    requires KeyInv(k, head) && CanIssue(k, head, ver, watermark)
    ensures KeyInv(Step(k, head, Issue(ver, grants, watermark)), head)
  {
    IssueKeepsSnapshots(k, head, ver, grants, watermark);
  }

  lemma {:induction false} DeliverKeepsLog(k: KeyState, head: nat, i: nat)
    requires LogInv(k, head) && i < |k.issued|
    ensures LogInv(Step(k, head, Deliver(i)), head)
  {
    var s, w, l := k.issued[i], k.acct.ackWatermark, k.logged[..k.confirmedCount];
    if s.ver >= k.acct.allowanceVer && s.watermark > w {
      AgedConfirmedMap(l, w, s.watermark);
      SumSplitsAtWatermark(k.acct.confirmed, s.watermark);
      ConfirmedMapSum(l, w);
      ConfirmedMapSum(l, s.watermark);
    }
  }

  lemma {:induction false} DeliverKeepsSnapshots(k: KeyState, head: nat, i: nat)
    requires SnapshotsInv(k, head) && i < |k.issued|
    ensures SnapshotsInv(Step(k, head, Deliver(i)), head)
  {
  }

  lemma {:induction false} DeliverKeepsInv(k: KeyState, head: nat, i: nat)
    requires KeyInv(k, head) && i < |k.issued|
    ensures KeyInv(Step(k, head, Deliver(i)), head)
  {
    DeliverKeepsLog(k, head, i);
    DeliverKeepsSnapshots(k, head, i);
  }

  lemma {:induction false} StepKeepsInv(k: KeyState, head: nat, op: Op)
    requires KeyInv(k, head)
    ensures KeyInv(Step(k, head, op), NewHead(head, k, Step(k, head, op)))
  {
    match op
    case Reserve(_) => HoldOpKeepsInv(k, head, op);
    case Release(_) => HoldOpKeepsInv(k, head, op);
    case TrueUp(_, _) => HoldOpKeepsInv(k, head, op);
    case Log(id) => if id in k.unlogged { LogKeepsInv(k, head, id); }
    case ConfirmNext => if k.confirmedCount < |k.logged| { ConfirmKeepsInv(k, head); }
    case ReplayConfirm(i) => if i < k.confirmedCount { ReplayIsNoOp(k, head, i); }
    case Issue(ver, grants, watermark) =>
      if CanIssue(k, head, ver, watermark) { IssueKeepsInv(k, head, ver, grants, watermark); }
    case Deliver(i) => if i < |k.issued| { DeliverKeepsInv(k, head, i); }
  }

  // Debits logged for other keys only raise the log's head.
  lemma {:induction false} HeadMayRise(k: KeyState, head: nat, head': nat)
    requires KeyInv(k, head) && head <= head'
    ensures KeyInv(k, head')
  {
  }

  // ---- the whole ledger ----

  datatype World = World(head: nat, keys: map<Key, KeyState>) {
    ghost function At(key: Key): KeyState {
      if key in keys then keys[key] else FRESH
    }
  }

  ghost function Run(ops: seq<(Key, Op)>): World
  {
    if ops == [] then World(0, map[])
    else
      var w := Run(ops[..|ops| - 1]);
      var (key, op) := ops[|ops| - 1];
      var k := w.At(key);
      var k' := Step(k, w.head, op);
      World(NewHead(w.head, k, k'), w.keys[key := k'])
  }

  lemma {:induction false} EveryRunKeepsInv(ops: seq<(Key, Op)>, key: Key)
    ensures KeyInv(Run(ops).At(key), Run(ops).head)
  {
    if ops == [] {
      UntouchedInv(FRESH, 0);
    } else {
      var before := ops[..|ops| - 1];
      var (acted, op) := ops[|ops| - 1];
      EveryRunKeepsInv(before, key);
      EveryRunKeepsInv(before, acted);
      var w := Run(before);
      StepKeepsInv(w.At(acted), w.head, op);
      if key != acted {
        HeadMayRise(w.At(key), w.head, Run(ops).head);
      }
    }
  }

  ghost predicate NettedAllConfirmed(k: KeyState) {
    forall i :: k.confirmedCount <= i < |k.logged| && k.logged[i].seqNo <= k.acct.ackWatermark ==> k.logged[i].cost == 0
  }

  lemma {:induction false} AvailableFromInv(k: KeyState, head: nat)
    requires KeyInv(k, head)
    ensures k.acct.Available() == k.Ideal() - k.NettedUnconfirmed()
  {
    var c, w := k.confirmedCount, k.acct.ackWatermark;
    assert k.logged == k.logged[..c] + k.logged[c..];
    CostConcat(k.logged[..c], k.logged[c..], w);
    CostSplits(k.logged[..c], w);
    if k.applied == -1 {
      NoCostUpTo(k.logged, 0);
    }
  }

  lemma {:induction false} NettedUnconfirmedZero(k: KeyState)
    requires k.confirmedCount <= |k.logged|
    ensures k.NettedUnconfirmed() == 0 <==> NettedAllConfirmed(k)
  {
    var rest := k.logged[k.confirmedCount..];
    CostUpToZero(rest, k.acct.ackWatermark);
    assert forall i :: k.confirmedCount <= i < |k.logged| ==> k.logged[i] == rest[i - k.confirmedCount];
    assert forall i :: 0 <= i < |rest| ==> rest[i] == k.logged[k.confirmedCount + i];
  }

  // On every run, for every key: what the ledger offers is the ideal account less the debits home has
  // netted and Confirm has not reached; so it never overstates, and it is exact once no chargeable
  // debit at or below the watermark is still to be confirmed.
  lemma {:induction false} AvailableOnEveryRun(ops: seq<(Key, Op)>, key: Key)
    ensures var k := Run(ops).At(key);
      && k.confirmedCount <= |k.logged|
      && k.acct.Available() == k.Ideal() - k.NettedUnconfirmed()
      && k.acct.Available() <= k.Ideal()
      && (k.acct.Available() == k.Ideal() <==> NettedAllConfirmed(k))
  {
    EveryRunKeepsInv(ops, key);
    AvailableFromInv(Run(ops).At(key), Run(ops).head);
    NettedUnconfirmedZero(Run(ops).At(key));
  }

  // Two requests racing a near-zero balance cannot both pass: right after any admitted Reserve, the
  // holds and debits of the key together stay within the credit granted to it.
  lemma {:induction false} AdmissionNeverOverspends(ops: seq<(Key, Op)>, key: Key, cost: int)
    requires Covers(Run(ops).At(key).acct, cost)
    ensures var k := Run(ops + [(key, Reserve(cost))]).At(key);
      SumMap(k.live) + SumMap(k.unlogged) + Cost(k.logged) <= k.Grants()
  {
    var ops' := ops + [(key, Reserve(cost))];
    assert ops'[..|ops'| - 1] == ops;
    AvailableOnEveryRun(ops', key);
  }

  // What a Reserve makes of a key: a hold of that size under a new id, and nothing else.
  ghost predicate HoldPlaced(k: KeyState, k': KeyState, hold: nat) {
    && k.nextId !in k.live && k'.live == k.live[k.nextId := hold] && k'.nextId == k.nextId + 1
    && k'.acct.reserved == k.acct.reserved + hold
    && k' == k.(live := k'.live, nextId := k'.nextId, acct := k.acct.(reserved := k'.acct.reserved))
  }

  // On every run a Reserve is granted exactly when the ideal account, less the debits home has netted and
  // Confirm has not reached, covers the cost; a grant holds just the cost, and a refusal changes nothing.
  lemma {:induction false} ReserveGrantedIff(ops: seq<(Key, Op)>, key: Key, cost: int)
    ensures var k, k' := Run(ops).At(key), Run(ops + [(key, Reserve(cost))]).At(key);
      && k.confirmedCount <= |k.logged|
      && var hold := if cost < 0 then 0 else cost;
      && (k.Ideal() - k.NettedUnconfirmed() >= hold ==> HoldPlaced(k, k', hold))
      && (k.Ideal() - k.NettedUnconfirmed() < hold ==> k' == k)
  {
    var ops' := ops + [(key, Reserve(cost))];
    assert ops'[..|ops'| - 1] == ops;
    AvailableOnEveryRun(ops, key);
    EveryRunKeepsInv(ops, key);
  }

  // ---- one hold, one snapshot, one catch-up, from any state a run can reach ----

  // A hold that is placed and given back leaves the account as it was.
  lemma {:induction false} ReleaseUndoesReserve(k: KeyState, head: nat, cost: int)
    requires KeyInv(k, head)
    ensures var k' := Step(Step(k, head, Reserve(cost)), head, Release(k.nextId));
      k'.acct == k.acct && k'.live == k.live && k'.unlogged == k.unlogged && k'.logged == k.logged
  {
    assert k.nextId !in k.live;
    assert k.live[k.nextId := AtLeastZero(cost)] - {k.nextId} == k.live;
  }

  // What a hold is trued up at is all that it costs.
  lemma {:induction false} TrueUpCharges(k: KeyState, head: nat, id: nat, actual: int)
    requires KeyInv(k, head) && id in k.live
    ensures var k', hold := Step(k, head, TrueUp(id, actual)), k.live[id];
      var bill := if actual < 0 then 0 else if actual <= hold then actual else hold;
      && k'.live == k.live - {id} && id !in k.unlogged && k'.unlogged == k.unlogged[id := bill]
      && k'.Ideal() == k.Ideal() + hold - bill
      && k'.acct.Available() == k.acct.Available() + hold - bill
  {
    SumRemove(k.live, id);
    SumInsert(k.unlogged, id, Billed(actual, k.live[id]));
  }

  // The bill then enters the log, last, under the next seq.
  lemma {:induction false} LogAppends(k: KeyState, head: nat, id: nat)
    requires KeyInv(k, head) && id in k.unlogged
    ensures var k' := Step(k, head, Log(id));
      && k'.logged == k.logged + [Debit(head + 1, k.unlogged[id])] && NewHead(head, k, k') == head + 1
      && k'.unlogged == k.unlogged - {id} && k'.acct == k.acct
  {
  }

  // The newest snapshot is accepted whenever it comes.
  lemma {:induction false} NewestSnapshotCounts(k: KeyState, head: nat)
    requires KeyInv(k, head) && k.issued != []
    ensures var n := |k.issued| - 1; var k' := Step(k, head, Deliver(n));
      && k'.applied == n && k'.acct.allowance == k.issued[n].balance && k'.acct.allowanceVer == k.issued[n].ver
      && k'.acct.ackWatermark == k.issued[n].watermark
  {
    DeliverKeepsSnapshots(k, head, |k.issued| - 1);
  }

  ghost function Confirming(k: KeyState, head: nat, n: nat): KeyState {
    if n == 0 then k else Step(Confirming(k, head, n - 1), head, ConfirmNext)
  }

  lemma {:induction false} ConfirmAdvances(k: KeyState, head: nat)
    requires KeyInv(k, head) && k.confirmedCount < |k.logged|
    ensures var k' := Step(k, head, ConfirmNext);
      && KeyInv(k', head) && k'.confirmedCount == k.confirmedCount + 1 && k'.Ideal() == k.Ideal()
      && k'.logged == k.logged
  {
    ConfirmKeepsInv(k, head);
  }

  lemma {:induction false} ConfirmingAdvances(k: KeyState, head: nat, n: nat)
    requires KeyInv(k, head) && k.confirmedCount + n <= |k.logged|
    ensures var k' := Confirming(k, head, n);
      && KeyInv(k', head) && k'.confirmedCount == k.confirmedCount + n && k'.Ideal() == k.Ideal()
      && k'.logged == k.logged
  {
    if n > 0 {
      ConfirmingAdvances(k, head, n - 1);
      ConfirmAdvances(Confirming(k, head, n - 1), head);
    }
  }

  // Confirming all that is left in the log makes the balance exact.
  lemma {:induction false} CaughtUpIsExact(k: KeyState, head: nat)
    requires KeyInv(k, head)
    ensures Confirming(k, head, |k.logged| - k.confirmedCount).acct.Available() == k.Ideal()
  {
    var n := |k.logged| - k.confirmedCount;
    var k' := Confirming(k, head, n);
    ConfirmingAdvances(k, head, n);
    AvailableFromInv(k', head);
    assert k'.logged[k'.confirmedCount..] == [];
  }

  // The running sum is the sum of the confirmed set, whose seqs all lie in (ackWatermark, confirmedHigh].
  ghost predicate SumFaithful(a: Account) {
    && a.confirmedSum == SumMap(a.confirmed)
    && forall s :: s in a.confirmed ==> a.ackWatermark < s <= a.confirmedHigh
  }

  lemma {:induction false} ConfirmedSumNeverDrifts(ops: seq<(Key, Op)>, key: Key)
    ensures SumFaithful(Run(ops).At(key).acct)
  {
    EveryRunKeepsInv(ops, key);
    ConfirmedSumFromInv(Run(ops).At(key), Run(ops).head);
  }

  lemma {:induction false} ConfirmedSumFromInv(k: KeyState, head: nat)
    requires LogInv(k, head)
    ensures SumFaithful(k.acct)
  {
    var l, w := k.logged[..k.confirmedCount], k.acct.ackWatermark;
    ConfirmedMapSum(l, w);
    ConfirmedMapKeys(l, w);
    ConfirmedMapBelow(l, w, k.acct.confirmedHigh);
  }

  lemma {:induction false} ConfirmedMapBelow(l: seq<Debit>, w: nat, high: nat)
    requires forall i :: 0 <= i < |l| && l[i].cost > 0 ==> l[i].seqNo <= high
    ensures forall s :: s in ConfirmedMap(l, w) ==> s <= high
  {
    if l != [] {
      ConfirmedMapBelow(l[..|l| - 1], w, high);
    }
  }

  // ---- restart: an empty ledger rebuilt from the log ----

  datatype ReplayOp = Next | Reread(index: nat) | Snap

  datatype Rebuild = Rebuild(acct: Account, replayed: nat, delivered: bool)

  // Replays log entry after entry, re-reading earlier ones at will, with deliveries of one snapshot
  // `s` anywhere in between.
  ghost function Rebuilt(log: seq<Debit>, s: Snapshot, ops: seq<ReplayOp>): Rebuild {
    if ops == [] then Rebuild(ZERO_ACCOUNT, 0, false)
    else
      var r := Rebuilt(log, s, ops[..|ops| - 1]);
      match ops[|ops| - 1]
      case Next =>
        if r.replayed < |log|
        then r.(acct := Confirmed(r.acct, log[r.replayed].cost, log[r.replayed].seqNo), replayed := r.replayed + 1)
        else r
      case Reread(i) =>
        if i < r.replayed && i < |log| then r.(acct := Confirmed(r.acct, log[i].cost, log[i].seqNo)) else r
      case Snap => r.(acct := Allowanced(r.acct, s.balance, s.watermark, s.ver), delivered := true)
  }

  ghost predicate RebuildInv(log: seq<Debit>, s: Snapshot, r: Rebuild) {
    && r.replayed <= |log|
    && r.acct.pending == 0 && r.acct.reserved == 0
    && r.acct.allowance == (if r.delivered then s.balance else 0)
    && r.acct.allowanceVer == (if r.delivered then s.ver else 0)
    && r.acct.ackWatermark == (if r.delivered then s.watermark else 0)
    && r.acct.confirmed == ConfirmedMap(log[..r.replayed], r.acct.ackWatermark)
    && r.acct.confirmedSum == CostPast(log[..r.replayed], r.acct.ackWatermark)
    && (forall i :: 0 <= i < r.replayed && log[i].cost > 0 ==> log[i].seqNo <= r.acct.confirmedHigh)
    && (forall i :: r.replayed <= i < |log| ==> log[i].seqNo > r.acct.confirmedHigh)
  }

  lemma {:induction false} SnapKeepsRebuild(log: seq<Debit>, s: Snapshot, r: Rebuild)
    requires Ascending(log) && RebuildInv(log, s, r)
    ensures RebuildInv(log, s, r.(acct := Allowanced(r.acct, s.balance, s.watermark, s.ver), delivered := true))
  {
    var l, w := log[..r.replayed], r.acct.ackWatermark;
    if s.watermark > w {
      AgedConfirmedMap(l, w, s.watermark);
      SumSplitsAtWatermark(r.acct.confirmed, s.watermark);
      ConfirmedMapSum(l, w);
      ConfirmedMapSum(l, s.watermark);
    }
  }

  lemma {:induction false} EveryRebuildKeepsInv(log: seq<Debit>, s: Snapshot, ops: seq<ReplayOp>)
    requires Ascending(log) && forall i :: 0 <= i < |log| ==> log[i].seqNo > 0
    ensures RebuildInv(log, s, Rebuilt(log, s, ops))
  {
    if ops != [] {
      var r := Rebuilt(log, s, ops[..|ops| - 1]);
      EveryRebuildKeepsInv(log, s, ops[..|ops| - 1]);
      match ops[|ops| - 1]
      case Next =>
        if r.replayed < |log| {
          assert log[..r.replayed + 1][..r.replayed] == log[..r.replayed];
        }
      case Reread(i) =>
      case Snap => SnapKeepsRebuild(log, s, r);
    } else {
      assert log[..0] == [];
    }
  }

  // Restart reconstruction: once the whole log is replayed and the snapshot delivered, the balance is
  // the snapshot's less every logged cost past its watermark, wherever the snapshot landed.
  lemma {:induction false} RestartReconstructs(log: seq<Debit>, s: Snapshot, ops: seq<ReplayOp>)
    requires Ascending(log) && forall i :: 0 <= i < |log| ==> log[i].seqNo > 0
    requires Rebuilt(log, s, ops).replayed == |log| && Rebuilt(log, s, ops).delivered
    ensures Rebuilt(log, s, ops).acct.Available() == s.balance - CostPast(log, s.watermark)
  {
    EveryRebuildKeepsInv(log, s, ops);
    assert log[..|log|] == log;
  }
}
