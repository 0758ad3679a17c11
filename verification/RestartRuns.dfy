/** A restart with live traffic: an empty ledger takes new requests and snapshots while the log of what it
    was billed before is still being replayed into it (proxy/credit_ledger.go). */
module RestartRuns {
  import opened Basics
  import opened Sums
  import opened LedgerSpec
  import opened LedgerRuns

  // One key after a restart: no account yet, its old debits in the log and still to be confirmed, and
  // whatever snapshots home has issued.
  ghost predicate IsRestart(k: KeyState, head: nat) {
    && k.acct == ZERO_ACCOUNT && k.live == map[] && k.unlogged == map[]
    && k.confirmedCount == 0 && k.applied == -1
    && LogInv(k, head) && SnapshotsInv(k, head)
  }

  // What a process that dies leaves of a key: only the log and home's snapshots survive.
  function Crashed(k: KeyState): KeyState {
    k.(acct := ZERO_ACCOUNT, live := map[], unlogged := map[], confirmedCount := 0, applied := -1)
  }

  lemma {:induction false} CrashedRestarts(k: KeyState, head: nat)
    requires LogInv(k, head) && SnapshotsInv(k, head)
    ensures IsRestart(Crashed(k), head)
  {
    assert k.logged[..0] == [];
  }

  // A restart can follow any run.
  lemma {:induction false} AnyRunMayRestart(ops: seq<(Key, Op)>, key: Key)
    ensures IsRestart(Crashed(Run(ops).At(key)), Run(ops).head)
  {
    EveryRunKeepsInv(ops, key);
    CrashedRestarts(Run(ops).At(key), Run(ops).head);
  }

  // A step of the key's own, or a debit logged for another key.
  datatype LiveOp = Mine(op: Op) | Others

  datatype Live = Live(k: KeyState, head: nat)

  ghost function LiveStep(l: Live, op: LiveOp): Live {
    match op
    case Others => Live(l.k, l.head + 1)
    case Mine(o) => Live(Step(l.k, l.head, o), NewHead(l.head, l.k, Step(l.k, l.head, o)))
  }

  ghost function LiveRun(start: Live, ops: seq<LiveOp>): Live {
    if ops == [] then start else LiveStep(LiveRun(start, ops[..|ops| - 1]), ops[|ops| - 1])
  }

  // The first `prior` log entries are from before the restart.  Of those that have been replayed, and of the
  // new ones that have been confirmed, there are:

  function Replayed(k: KeyState, prior: nat): nat {
    if k.confirmedCount < prior then k.confirmedCount else prior
  }

  function NewFrom(k: KeyState, prior: nat): nat {
    if k.confirmedCount < prior then prior else k.confirmedCount
  }

  ghost predicate Counted(k: KeyState, prior: nat) {
    prior <= |k.logged| && k.confirmedCount <= |k.logged|
  }

  // New bills not confirmed yet: what pending should be.
  ghost function Owed(k: KeyState, prior: nat): int
    requires Counted(k, prior)
  {
    SumMap(k.unlogged) + Cost(k.logged[NewFrom(k, prior)..])
  }

  // By how much pending is short of it.
  ghost function Lost(k: KeyState, prior: nat): int
    requires Counted(k, prior)
  {
    Owed(k, prior) - k.acct.pending
  }

  // New debits home has netted and Confirm has not reached, and old ones it will never net that the replay
  // has not reached.
  ghost function NettedNew(k: KeyState, prior: nat): nat
    requires Counted(k, prior)
  {
    CostUpTo(k.logged[NewFrom(k, prior)..], k.acct.ackWatermark)
  }

  ghost function Unreplayed(k: KeyState, prior: nat): nat
    requires Counted(k, prior)
  {
    CostPast(k.logged[Replayed(k, prior)..prior], k.acct.ackWatermark)
  }

  ghost predicate LiveHolds(k: KeyState, prior: nat) {
    && Counted(k, prior)
    && (forall id :: id in k.live ==> id < k.nextId && k.live[id] >= 0)
    && (forall id :: id in k.unlogged ==> id < k.nextId && id !in k.live && k.unlogged[id] >= 0)
    && k.acct.reserved == SumMap(k.live)
    && 0 <= k.acct.pending
    && 0 <= Lost(k, prior) <= Cost(k.logged[..Replayed(k, prior)])
  }

  ghost predicate LiveInv(k: KeyState, prior: nat, head: nat) {
    LiveHolds(k, prior) && LogInv(k, head) && SnapshotsInv(k, head)
  }

  lemma {:induction false} RestartKeepsInv(k: KeyState, head: nat)
    requires IsRestart(k, head)
    ensures LiveInv(k, |k.logged|, head)
  {
    assert k.logged[|k.logged|..] == [] && k.logged[..0] == [];
  }

  // What the hold operations leave alone.
  lemma {:induction false} HoldOpKeepsRest(k: KeyState, head: nat, op: Op)
    requires LogInv(k, head) && SnapshotsInv(k, head) && (op.Reserve? || op.Release? || op.TrueUp?)
    ensures LogInv(Step(k, head, op), head) && SnapshotsInv(Step(k, head, op), head)
  {
  }

  lemma {:induction false} HoldOpKeepsLive(k: KeyState, prior: nat, head: nat, op: Op)
    requires LiveHolds(k, prior) && (op.Reserve? || op.Release? || op.TrueUp?)
    ensures LiveHolds(Step(k, head, op), prior) && Lost(Step(k, head, op), prior) == Lost(k, prior)
  {
    match op
    case Reserve(cost) => SumInsert(k.live, k.nextId, AtLeastZero(cost));
    case Release(id) => if id in k.live { SumRemove(k.live, id); }
    case TrueUp(id, actual) =>
      if id in k.live {
        SumRemove(k.live, id);
        SumInsert(k.unlogged, id, Billed(actual, k.live[id]));
      }
  }

  lemma {:induction false} OwedAfterLog(k: KeyState, prior: nat, head: nat, id: nat)
    requires Counted(k, prior) && id in k.unlogged && k.unlogged[id] >= 0
    ensures Counted(Step(k, head, Log(id)), prior) && Owed(Step(k, head, Log(id)), prior) == Owed(k, prior)
  {
    var from := NewFrom(k, prior);
    var d := Debit(head + 1, k.unlogged[id]);
    SumRemove(k.unlogged, id);
    assert (k.logged + [d])[from..] == k.logged[from..] + [d];
    CostConcat(k.logged[from..], [d], 0);
    assert Cost([d]) == Cost([]) + d.cost;
  }

  lemma {:induction false} LogKeepsLive(k: KeyState, prior: nat, head: nat, id: nat)
    requires LiveHolds(k, prior) && id in k.unlogged
    ensures LiveHolds(Step(k, head, Log(id)), prior) && Lost(Step(k, head, Log(id)), prior) == Lost(k, prior)
  {
    OwedAfterLog(k, prior, head, id);
    assert Step(k, head, Log(id)).logged[..Replayed(k, prior)] == k.logged[..Replayed(k, prior)];
  }

  // Replaying an old debit takes its cost out of whatever is pending: that much is lost.
  lemma {:induction false} ReplayLoses(k: KeyState, prior: nat, head: nat)
    requires LiveHolds(k, prior) && k.confirmedCount < prior
    requires k.logged[k.confirmedCount].seqNo > k.acct.confirmedHigh
    ensures var k', c := Step(k, head, ConfirmNext), k.logged[k.confirmedCount].cost;
      && LiveHolds(k', prior)
      && Lost(k', prior) == Lost(k, prior) + if k.acct.pending < c then k.acct.pending else c
  {
    var n := k.confirmedCount;
    assert k.logged[..n + 1][..n] == k.logged[..n];
  }

  lemma {:induction false} OwedAfterConfirm(k: KeyState, prior: nat)
    requires Counted(k, prior) && prior <= k.confirmedCount < |k.logged|
    requires forall id :: id in k.unlogged ==> k.unlogged[id] >= 0
    ensures var next := k.(confirmedCount := k.confirmedCount + 1);
      0 <= Owed(next, prior) == Owed(k, prior) - k.logged[k.confirmedCount].cost
  {
    var n := k.confirmedCount;
    var d := k.logged[n];
    assert k.logged[n..] == [d] + k.logged[n + 1..];
    CostConcat([d], k.logged[n + 1..], 0);
    assert Cost([d]) == Cost([]) + d.cost;
    SumNonNegative(k.unlogged);
  }

  // Confirming a new one finds again what was lost beyond what is still owed.
  lemma {:induction false} ConfirmRegains(k: KeyState, prior: nat, head: nat)
    requires LiveHolds(k, prior) && prior <= k.confirmedCount < |k.logged|
    requires k.logged[k.confirmedCount].seqNo > k.acct.confirmedHigh
    ensures var k' := Step(k, head, ConfirmNext);
      && LiveHolds(k', prior)
      && Lost(k', prior) == if Lost(k, prior) < Owed(k', prior) then Lost(k, prior) else Owed(k', prior)
  {
    var k' := Step(k, head, ConfirmNext);
    OwedAfterConfirm(k, prior);
    assert Owed(k', prior) == Owed(k.(confirmedCount := k.confirmedCount + 1), prior);
  }

  lemma {:induction false} ConfirmKeepsLive(k: KeyState, prior: nat, head: nat)
    requires LiveInv(k, prior, head) && k.confirmedCount < |k.logged|
    ensures LiveInv(Step(k, head, ConfirmNext), prior, head)
  {
    ConfirmKeepsLog(k, head);
    ConfirmKeepsSnapshots(k, head);
    if k.confirmedCount < prior {
      ReplayLoses(k, prior, head);
    } else {
      ConfirmRegains(k, prior, head);
    }
  }

  lemma {:induction false} ConfirmKeepsSnapshots(k: KeyState, head: nat)
    requires SnapshotsInv(k, head)
    ensures SnapshotsInv(Step(k, head, ConfirmNext), head)
  {
  }

  lemma {:induction false} RereadIsNoOp(k: KeyState, head: nat, i: nat)
    requires LogInv(k, head)
    ensures Step(k, head, ReplayConfirm(i)) == k
  {
  }

  lemma {:induction false} SnapshotOpKeepsHolds(k: KeyState, prior: nat, head: nat, op: Op)
    requires LiveHolds(k, prior) && (op.Issue? || op.Deliver?)
    ensures LiveHolds(Step(k, head, op), prior) && Lost(Step(k, head, op), prior) == Lost(k, prior)
  {
    var k' := Step(k, head, op);
    assert k'.acct.pending == k.acct.pending && k'.acct.reserved == k.acct.reserved;
    assert k'.live == k.live && k'.unlogged == k.unlogged;
    assert k'.logged == k.logged && k'.confirmedCount == k.confirmedCount;
  }

  lemma {:induction false} IssueKeepsRest(k: KeyState, head: nat, ver: nat, grants: int, watermark: nat)
    requires LogInv(k, head) && SnapshotsInv(k, head)
    ensures LogInv(Step(k, head, Issue(ver, grants, watermark)), head)
    ensures SnapshotsInv(Step(k, head, Issue(ver, grants, watermark)), head)
  {
    if CanIssue(k, head, ver, watermark) {
      IssueKeepsSnapshots(k, head, ver, grants, watermark);
    }
  }

  lemma {:induction false} DeliverKeepsRest(k: KeyState, head: nat, i: nat)
    requires LogInv(k, head) && SnapshotsInv(k, head)
    ensures LogInv(Step(k, head, Deliver(i)), head) && SnapshotsInv(Step(k, head, Deliver(i)), head)
  {
    if i < |k.issued| {
      DeliverKeepsLog(k, head, i);
      DeliverKeepsSnapshots(k, head, i);
    }
  }

  lemma {:induction false} SnapshotOpKeepsLive(k: KeyState, prior: nat, head: nat, op: Op)
    requires LiveInv(k, prior, head) && (op.Issue? || op.Deliver?)
    ensures LiveInv(Step(k, head, op), prior, head) && Lost(Step(k, head, op), prior) == Lost(k, prior)
  {
    SnapshotOpKeepsHolds(k, prior, head, op);
    match op
    case Issue(ver, grants, watermark) => IssueKeepsRest(k, head, ver, grants, watermark);
    case Deliver(i) => DeliverKeepsRest(k, head, i);
  }

  lemma {:induction false} HeadRises(k: KeyState, head: nat, head': nat)
    requires LogInv(k, head) && SnapshotsInv(k, head) && head <= head'
    ensures LogInv(k, head') && SnapshotsInv(k, head')
  {
  }

  lemma {:induction false} HoldOpKeepsAll(k: KeyState, prior: nat, head: nat, op: Op)
    requires LiveInv(k, prior, head) && (op.Reserve? || op.Release? || op.TrueUp?)
    ensures LiveInv(Step(k, head, op), prior, head) && NewHead(head, k, Step(k, head, op)) == head
  {
    HoldOpKeepsRest(k, head, op);
    HoldOpKeepsLive(k, prior, head, op);
  }

  lemma {:induction false} LogKeepsAll(k: KeyState, prior: nat, head: nat, id: nat)
    requires LiveInv(k, prior, head)
    ensures var k' := Step(k, head, Log(id)); LiveInv(k', prior, NewHead(head, k, k'))
  {
    if id in k.unlogged {
      LogKeepsLive(k, prior, head, id);
      LogKeepsLog(k, head, id);
      LogKeepsSnapshots(k, head, id);
    }
  }

  lemma {:induction false} MineKeepsInv(k: KeyState, prior: nat, head: nat, op: Op)
    requires LiveInv(k, prior, head)
    ensures LiveInv(Step(k, head, op), prior, NewHead(head, k, Step(k, head, op)))
  {
    match op
    case Reserve(_) => HoldOpKeepsAll(k, prior, head, op);
    case Release(_) => HoldOpKeepsAll(k, prior, head, op);
    case TrueUp(_, _) => HoldOpKeepsAll(k, prior, head, op);
    case Log(id) => LogKeepsAll(k, prior, head, id);
    case ConfirmNext => if k.confirmedCount < |k.logged| { ConfirmKeepsLive(k, prior, head); }
    case ReplayConfirm(i) => RereadIsNoOp(k, head, i);
    case Issue(_, _, _) => SnapshotOpKeepsLive(k, prior, head, op);
    case Deliver(_) => SnapshotOpKeepsLive(k, prior, head, op);
  }

  lemma {:induction false} LiveStepKeepsInv(l: Live, prior: nat, op: LiveOp)
    requires LiveInv(l.k, prior, l.head)
    ensures LiveInv(LiveStep(l, op).k, prior, LiveStep(l, op).head)
  {
    match op
    case Others => HeadRises(l.k, l.head, l.head + 1);
    case Mine(o) => MineKeepsInv(l.k, prior, l.head, o);
  }

  lemma {:induction false} LiveRunKeepsInv(start: Live, ops: seq<LiveOp>)
    requires IsRestart(start.k, start.head)
    ensures LiveInv(LiveRun(start, ops).k, |start.k.logged|, LiveRun(start, ops).head)
  {
    if ops == [] {
      RestartKeepsInv(start.k, start.head);
    } else {
      LiveRunKeepsInv(start, ops[..|ops| - 1]);
      LiveStepKeepsInv(LiveRun(start, ops[..|ops| - 1]), |start.k.logged|, ops[|ops| - 1]);
    }
  }

  lemma {:induction false} CostOfParts(l: seq<Debit>, n: nat, from: nat, w: nat)
    requires n <= from <= |l|
    ensures Cost(l) == CostUpTo(l, w) + CostPast(l[..n], w) + CostPast(l[n..from], w) + CostPast(l[from..], w)
  {
    assert l == l[..n] + l[n..] && l[n..] == l[n..from] + l[from..];
    CostConcat(l[..n], l[n..], w);
    CostConcat(l[n..from], l[from..], w);
    CostSplits(l, w);
  }

  lemma {:induction false} AllowanceIs(k: KeyState, head: nat)
    requires LogInv(k, head) && SnapshotsInv(k, head)
    ensures k.acct.allowance == k.Grants() - CostUpTo(k.logged, k.acct.ackWatermark)
  {
    if k.applied == -1 {
      NoCostUpTo(k.logged, 0);
    }
  }

  // And another restart can follow at any moment.
  lemma {:induction false} LiveRunMayRestart(start: Live, ops: seq<LiveOp>)
    requires IsRestart(start.k, start.head)
    ensures IsRestart(Crashed(LiveRun(start, ops).k), LiveRun(start, ops).head)
  {
    LiveRunKeepsInv(start, ops);
    CrashedRestarts(LiveRun(start, ops).k, LiveRun(start, ops).head);
  }

  lemma {:induction false} LiveAvailableFromInv(k: KeyState, prior: nat, head: nat)
    requires LiveInv(k, prior, head)
    ensures k.acct.Available() == k.Ideal() - NettedNew(k, prior) + Unreplayed(k, prior) + Lost(k, prior)
  {
    var w, from := k.acct.ackWatermark, NewFrom(k, prior);
    AllowanceIs(k, head);
    CostOfParts(k.logged, k.confirmedCount, from, w);
    CostSplits(k.logged[from..], w);
    UnreplayedIs(k, prior);
  }

  lemma {:induction false} UnreplayedIs(k: KeyState, prior: nat)
    requires Counted(k, prior)
    ensures Unreplayed(k, prior) == CostPast(k.logged[k.confirmedCount..NewFrom(k, prior)], k.acct.ackWatermark)
  {
    if k.confirmedCount >= prior {
      assert k.logged[Replayed(k, prior)..prior] == [] == k.logged[k.confirmedCount..NewFrom(k, prior)];
    }
  }

  // At every moment of a restart with live traffic: the balance is the ideal account less the new debits
  // home has netted and Confirm has not reached, plus the old ones past the watermark the replay has not
  // reached, plus what replays have taken out of pending.  That last part is never more than what is owed
  // for new traffic, nor than what has been replayed, so it is gone once the new bills are confirmed.
  lemma {:induction false} AvailableAfterRestart(start: Live, ops: seq<LiveOp>)
    requires IsRestart(start.k, start.head)
    ensures var k, prior := LiveRun(start, ops).k, |start.k.logged|;
      && Counted(k, prior)
      && k.acct.Available() == k.Ideal() - NettedNew(k, prior) + Unreplayed(k, prior) + Lost(k, prior)
      && 0 <= Lost(k, prior) <= Owed(k, prior)
      && Lost(k, prior) <= Cost(k.logged[..Replayed(k, prior)])
      && (k.confirmedCount >= prior ==> Unreplayed(k, prior) == 0)
  {
    LiveRunKeepsInv(start, ops);
    LiveAvailableFromInv(LiveRun(start, ops).k, |start.k.logged|, LiveRun(start, ops).head);
  }

  // ---- exactly when nothing is lost ----

  // The step that loses: an old debit that costs something is replayed while anything is pending.
  ghost predicate ReplaysOverTraffic(l: Live, prior: nat, op: LiveOp) {
    && op == Mine(ConfirmNext) && l.k.confirmedCount < prior && l.k.confirmedCount < |l.k.logged|
    && l.k.logged[l.k.confirmedCount].cost > 0 && l.k.acct.pending > 0
  }

  lemma {:induction false} StepLosesIff(l: Live, prior: nat, op: LiveOp)
    requires LiveInv(l.k, prior, l.head) && Lost(l.k, prior) == 0
    ensures Counted(LiveStep(l, op).k, prior)
    ensures Lost(LiveStep(l, op).k, prior) == 0 <==> !ReplaysOverTraffic(l, prior, op)
  {
    var k, head := l.k, l.head;
    LiveStepKeepsInv(l, prior, op);
    match op
    case Others =>
    case Mine(o) =>
      match o
      case Reserve(_) => HoldOpKeepsLive(k, prior, head, o);
      case Release(_) => HoldOpKeepsLive(k, prior, head, o);
      case TrueUp(_, _) => HoldOpKeepsLive(k, prior, head, o);
      case Log(id) => if id in k.unlogged { LogKeepsLive(k, prior, head, id); }
      case ConfirmNext =>
        if k.confirmedCount < prior {
          ReplayLoses(k, prior, head);
        } else if k.confirmedCount < |k.logged| {
          ConfirmRegains(k, prior, head);
        }
      case ReplayConfirm(i) => RereadIsNoOp(k, head, i);
      case Issue(_, _, _) => SnapshotOpKeepsLive(k, prior, head, o);
      case Deliver(_) => SnapshotOpKeepsLive(k, prior, head, o);
  }

  ghost predicate NothingLost(start: Live, ops: seq<LiveOp>, m: nat)
    requires m <= |ops|
  {
    var k := LiveRun(start, ops[..m]).k;
    Counted(k, |start.k.logged|) && Lost(k, |start.k.logged|) == 0
  }

  ghost predicate QuietStep(start: Live, ops: seq<LiveOp>, m: nat)
    requires m < |ops|
  {
    !ReplaysOverTraffic(LiveRun(start, ops[..m]), |start.k.logged|, ops[m])
  }

  lemma {:induction false} StepStaysExactIff(start: Live, ops: seq<LiveOp>, m: nat)
    requires IsRestart(start.k, start.head) && m < |ops| && NothingLost(start, ops, m)
    ensures NothingLost(start, ops, m + 1) <==> QuietStep(start, ops, m)
  {
    LiveRunKeepsInv(start, ops[..m]);
    assert ops[..m + 1][..m] == ops[..m];
    StepLosesIff(LiveRun(start, ops[..m]), |start.k.logged|, ops[m]);
  }

  lemma {:induction false} QuietSoFar(start: Live, ops: seq<LiveOp>, m: nat)
    requires IsRestart(start.k, start.head) && m <= |ops|
    requires forall i :: 0 <= i < |ops| ==> QuietStep(start, ops, i)
    ensures NothingLost(start, ops, m)
  {
    if m == 0 {
      LiveRunKeepsInv(start, []);
      assert ops[..0] == [];
    } else {
      QuietSoFar(start, ops, m - 1);
      StepStaysExactIff(start, ops, m - 1);
    }
  }

  // The ledger is exact in this respect at every moment exactly when no old debit that costs something is
  // replayed while anything is pending.
  lemma {:induction false} NeverLosesIffQuiet(start: Live, ops: seq<LiveOp>)
    requires IsRestart(start.k, start.head)
    ensures (forall m :: 0 <= m <= |ops| ==> NothingLost(start, ops, m))
      <==> (forall m :: 0 <= m < |ops| ==> QuietStep(start, ops, m))
  {
    if forall m :: 0 <= m <= |ops| ==> NothingLost(start, ops, m) {
      forall m | 0 <= m < |ops|
        ensures QuietStep(start, ops, m)
      {
        assert NothingLost(start, ops, m + 1);
        StepStaysExactIff(start, ops, m);
      }
    }
    if forall m :: 0 <= m < |ops| ==> QuietStep(start, ops, m) {
      forall m | 0 <= m <= |ops|
        ensures NothingLost(start, ops, m)
      {
        QuietSoFar(start, ops, m);
      }
    }
  }

  // ---- a loss ----

  lemma {:induction false} OneMore(start: Live, ops: seq<LiveOp>, op: LiveOp)
    ensures LiveRun(start, ops + [op]) == LiveStep(LiveRun(start, ops), op)
  {
    assert (ops + [op])[..|ops|] == ops;
  }

  lemma {:induction false} FourSteps(k: KeyState, head: nat, a: Op, b: Op, c: Op, d: Op)
    requires !a.Log? && !b.Log? && !c.Log?
    ensures LiveRun(Live(k, head), [Mine(a), Mine(b), Mine(c), Mine(d)]).k
      == Step(Step(Step(Step(k, head, a), head, b), head, c), head, d)
  {
    var start := Live(k, head);
    OneMore(start, [], Mine(a));
    OneMore(start, [Mine(a)], Mine(b));
    OneMore(start, [Mine(a), Mine(b)], Mine(c));
    OneMore(start, [Mine(a), Mine(b), Mine(c)], Mine(d));
    assert [] + [Mine(a)] == [Mine(a)] && [Mine(a)] + [Mine(b)] == [Mine(a), Mine(b)];
    assert [Mine(a), Mine(b)] + [Mine(c)] == [Mine(a), Mine(b), Mine(c)];
    assert [Mine(a), Mine(b), Mine(c)] + [Mine(d)] == [Mine(a), Mine(b), Mine(c), Mine(d)];
    HeadStays(k, head, a);
    HeadStays(Step(k, head, a), head, b);
    HeadStays(Step(Step(k, head, a), head, b), head, c);
  }

  lemma {:induction false} HeadStays(k: KeyState, head: nat, op: Op)
    requires !op.Log?
    ensures NewHead(head, k, Step(k, head, op)) == head
  {
  }

  // One old debit of 10 to replay, and one snapshot to deliver that grants 100 and nets nothing.
  ghost predicate OldDebitOfTen(k: KeyState, head: nat) {
    && IsRestart(k, head) && k.logged == [Debit(1, 10)]
    && |k.issued| == 1 && k.issued[0].grants == 100 && k.issued[0].watermark == 0
  }

  lemma {:induction false} Delivered(k: KeyState, head: nat)
    requires OldDebitOfTen(k, head)
    ensures Step(k, head, Deliver(0))
            == k.(acct := ZERO_ACCOUNT.(allowance := 100, allowanceVer := k.issued[0].ver), applied := 0)
  {
    NoCostUpTo(k.logged, 0);
  }

  // With 100 to spend, a request that holds and is billed 7.
  lemma {:induction false} BilledSeven(k: KeyState, head: nat)
    requires k.acct.Available() == 100 && k.acct.reserved == 0 && k.acct.pending == 0
    requires k.live == map[] && k.unlogged == map[]
    ensures var k' := Step(Step(k, head, Reserve(7)), head, TrueUp(k.nextId, 7));
      && k' == k.(acct := k.acct.(pending := 7), nextId := k.nextId + 1, unlogged := map[k.nextId := 7])
      && SumMap(k'.unlogged) == 7
  {
    assert map[k.nextId := 7] - {k.nextId} == map[];
    SumRemove(map[k.nextId := 7], k.nextId);
  }

  lemma {:induction false} TenReplayed(k: KeyState, head: nat)
    requires k.logged == [Debit(1, 10)] && k.confirmedCount == 0
    requires k.acct.confirmedHigh == 0 && k.acct.ackWatermark == 0 && 0 <= k.acct.pending <= 10
    ensures var k' := Step(k, head, ConfirmNext);
      && k'.acct.Available() == k.acct.Available() + k.acct.pending - 10
      && k'.Ideal() == k.Grants() - SumMap(k.live) - SumMap(k.unlogged) - 10
  {
    assert k.logged[..0] == [];
    assert Cost(k.logged) == Cost([]) + 10;
  }

  // The replay of the old debit then takes those 7 for a part of its 10.
  lemma {:induction false} ReplayOverstatesByBill(k: KeyState, head: nat)
    requires OldDebitOfTen(k, head)
    ensures var ops := [Mine(Deliver(0)), Mine(Reserve(7)), Mine(TrueUp(k.nextId, 7)), Mine(ConfirmNext)];
      var end := LiveRun(Live(k, head), ops).k;
      end.acct.Available() == 90 && end.Ideal() == 83
  {
    FourSteps(k, head, Deliver(0), Reserve(7), TrueUp(k.nextId, 7), ConfirmNext);
    Delivered(k, head);
    var k' := k.(acct := ZERO_ACCOUNT.(allowance := 100, allowanceVer := k.issued[0].ver), applied := 0);
    BilledSeven(k', head);
    var k'' := k'.(acct := k'.acct.(pending := 7), nextId := k.nextId + 1, unlogged := map[k.nextId := 7]);
    TenReplayed(k'', head);
    assert SumMap(k''.live) == 0;
  }
}
