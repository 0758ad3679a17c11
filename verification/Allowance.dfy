/** The pushed allowance snapshots (proxy/allowance.go): validation, the version guard, and what any
    sequence of pushes does to the ledger. */
module IngestSpec {
  import opened Basics
  import opened LedgerSpec

  datatype Entry = Entry(key: Key, balance: int, watermark: nat)

  datatype Snapshot = Snapshot(ver: nat, ts: int, allowances: seq<Entry>)

  // What the decoder made of a pushed body: a snapshot, or nothing for a malformed one.
  type Push = Option<Snapshot>

  predicate GoodEntry(s: Snapshot, i: nat)
    requires i < |s.allowances|
  {
    && s.allowances[i].key.fingerprint != "" && s.allowances[i].balance >= 0
    && forall j :: 0 <= j < i ==> s.allowances[j].key != s.allowances[i].key
  }

  predicate WellFormed(s: Snapshot) {
    s.ver != 0 && forall i :: 0 <= i < |s.allowances| ==> GoodEntry(s, i)
  }

  predicate Valid(p: Push) {
    p.Some? && WellFormed(p.value)
  }

  predicate Accepts(lastVer: nat, p: Push) {
    Valid(p) && p.value.ver > lastVer
  }

  // The effect of applying entries in order on one key's account.
  ghost function Entered(a: Account, key: Key, entries: seq<Entry>, ver: nat): Account {
    if entries == [] then a
    else
      var b, e := Entered(a, key, entries[..|entries| - 1], ver), entries[|entries| - 1];
      if e.key == key then Allowanced(b, e.balance, e.watermark, ver) else b
  }

  ghost predicate Names(s: Snapshot, key: Key) {
    exists i :: 0 <= i < |s.allowances| && s.allowances[i].key == key
  }

  lemma {:induction false} UnnamedIsUntouched(a: Account, key: Key, entries: seq<Entry>, ver: nat)
    requires forall i :: 0 <= i < |entries| ==> entries[i].key != key
    ensures Entered(a, key, entries, ver) == a
  {
    if entries != [] {
      UnnamedIsUntouched(a, key, entries[..|entries| - 1], ver);
    }
  }

  // Of entries with distinct keys the one naming the key decides, provided the ledger's own guard lets
  // the version through.
  lemma {:induction false} NamedIsSet(a: Account, key: Key, entries: seq<Entry>, ver: nat, i: nat)
    requires i < |entries| && entries[i].key == key && a.allowanceVer <= ver
    requires forall j :: 0 <= j < |entries| && j != i ==> entries[j].key != key
    ensures Entered(a, key, entries, ver) == Allowanced(a, entries[i].balance, entries[i].watermark, ver)
  {
    var n := |entries| - 1;
    if i < n {
      NamedIsSet(a, key, entries[..n], ver, i);
    } else {
      UnnamedIsUntouched(a, key, entries[..n], ver);
    }
  }

  // ---- runs: pushes among other traffic on the ledger ----

  datatype Op =
    | Reserve(cost: int)
    | Release(hold: int)
    | TrueUp(hold: int, actual: int)
    | Confirm(cost: int, seqNo: nat)

  datatype Event = Pushed(p: Push) | Traffic(key: Key, op: Op)

  function Moved(a: Account, op: Op): Account {
    match op
    case Reserve(c) => Reserved(a, c)
    case Release(h) => Released(a, h)
    case TrueUp(h, c) => TruedUp(a, h, c)
    case Confirm(c, s) => Confirmed(a, c, s)
  }

  datatype Ingested = Ingested(lastVer: nat, lastTs: int, accepted: nat, rejects: nat)

  function Ingest(events: seq<Event>): Ingested {
    if events == [] then Ingested(0, 0, 0, 0)
    else
      var g := Ingest(events[..|events| - 1]);
      match events[|events| - 1]
      case Traffic(_, _) => g
      case Pushed(p) =>
        if Accepts(g.lastVer, p) then Ingested(p.value.ver, p.value.ts, g.accepted + 1, g.rejects)
        else g.(rejects := g.rejects + 1)
  }

  ghost function AccountAfter(events: seq<Event>, key: Key): Account {
    if events == [] then ZERO_ACCOUNT
    else
      var init := events[..|events| - 1];
      var a := AccountAfter(init, key);
      match events[|events| - 1]
      case Traffic(k, op) => if k == key then Moved(a, op) else a
      case Pushed(p) => if Accepts(Ingest(init).lastVer, p) then Entered(a, key, p.value.allowances, p.value.ver) else a
  }

  // A valid push that beats every valid push before it, accepted or not.
  ghost predicate IsRecord(events: seq<Event>, i: nat)
    requires i < |events|
  {
    && events[i].Pushed? && Valid(events[i].p)
    && forall j :: 0 <= j < i && events[j].Pushed? && Valid(events[j].p) ==>
         events[j].p.value.ver < events[i].p.value.ver
  }

  lemma {:induction false} LastVerIsHighest(events: seq<Event>)
    ensures var v := Ingest(events).lastVer;
      && (forall j :: 0 <= j < |events| && events[j].Pushed? && Valid(events[j].p) ==> events[j].p.value.ver <= v)
      && (v == 0
          || exists j :: 0 <= j < |events|
                         && events[j].Pushed? && Valid(events[j].p) && events[j].p.value.ver == v)
  {
    if events != [] {
      var init, last := events[..|events| - 1], events[|events| - 1];
      LastVerIsHighest(init);
      var v := Ingest(init).lastVer;
      if !(last.Pushed? && Accepts(v, last.p)) && v != 0 {
        var j :| 0 <= j < |init| && init[j].Pushed? && Valid(init[j].p) && init[j].p.value.ver == v;
        assert events[j] == init[j];
      }
    }
  }

  // The version guard accepts exactly the record-high valid pushes, so versions it has accepted strictly rise.
  lemma {:induction false} AcceptedIffRecord(events: seq<Event>, i: nat)
    requires i < |events| && events[i].Pushed?
    ensures Accepts(Ingest(events[..i]).lastVer, events[i].p) <==> IsRecord(events, i)
    ensures IsRecord(events, i) ==> Ingest(events[..i + 1]).lastVer > Ingest(events[..i]).lastVer
    ensures !IsRecord(events, i) ==> Ingest(events[..i + 1]).lastVer == Ingest(events[..i]).lastVer
  {
    var init := events[..i];
    LastVerIsHighest(init);
    assert events[..i + 1][..i] == init;
    if IsRecord(events, i) && Ingest(init).lastVer != 0 {
      var j :| 0 <= j < |init| && init[j].Pushed? && Valid(init[j].p) && init[j].p.value.ver == Ingest(init).lastVer;
      assert events[j] == init[j];
    } else if Accepts(Ingest(init).lastVer, events[i].p) {
      forall j | 0 <= j < i && events[j].Pushed? && Valid(events[j].p)
        ensures events[j].p.value.ver < events[i].p.value.ver
      {
        assert init[j] == events[j];
      }
    }
  }

  ghost function PushCount(events: seq<Event>): nat {
    if events == [] then 0 else PushCount(events[..|events| - 1]) + if events[|events| - 1].Pushed? then 1 else 0
  }

  lemma {:induction false} EveryPushIsCounted(events: seq<Event>)
    ensures Ingest(events).accepted + Ingest(events).rejects == PushCount(events)
  {
    if events != [] {
      EveryPushIsCounted(events[..|events| - 1]);
    }
  }

  // The traffic and the record pushes.
  ghost function RecordsOnly(events: seq<Event>): seq<Event> {
    if events == [] then []
    else
      var kept := RecordsOnly(events[..|events| - 1]);
      if events[|events| - 1].Traffic? || IsRecord(events, |events| - 1) then kept + [events[|events| - 1]] else kept
  }

  // However pushes are malformed, repeated, late or reordered, the ledger and the version held are those
  // of a run in which only the record-high valid pushes were made.
  lemma {:induction false} OnlyRecordsMatter(events: seq<Event>, key: Key)
    ensures AccountAfter(events, key) == AccountAfter(RecordsOnly(events), key)
    ensures Ingest(events).lastVer == Ingest(RecordsOnly(events)).lastVer
    ensures Ingest(events).lastTs == Ingest(RecordsOnly(events)).lastTs
    ensures Ingest(RecordsOnly(events)).rejects == 0
  {
    if events != [] {
      var n := |events| - 1;
      var init, kept := events[..n], RecordsOnly(events[..n]);
      OnlyRecordsMatter(init, key);
      if events[n].Pushed? {
        AcceptedIffRecord(events, n);
      }
      assert (kept + [events[n]])[..|kept|] == kept;
    }
  }

  lemma {:induction false} EnteredVer(a: Account, key: Key, entries: seq<Entry>, ver: nat)
    requires a.allowanceVer <= ver
    ensures Entered(a, key, entries, ver).allowanceVer <= ver
  {
    if entries != [] {
      EnteredVer(a, key, entries[..|entries| - 1], ver);
    }
  }

  // No account is ahead of the ingester, so the ledger's own version guard never drops an accepted entry.
  lemma {:induction false} AccountVerBehind(events: seq<Event>, key: Key)
    ensures AccountAfter(events, key).allowanceVer <= Ingest(events).lastVer
  {
    if events != [] {
      var init, last := events[..|events| - 1], events[|events| - 1];
      AccountVerBehind(init, key);
      if last.Pushed? && Accepts(Ingest(init).lastVer, last.p) {
        EnteredVer(AccountAfter(init, key), key, last.p.value.allowances, last.p.value.ver);
      }
    }
  }

  ghost predicate NamedBy(events: seq<Event>, i: nat, key: Key)
    requires i < |events|
  {
    IsRecord(events, i) && Names(events[i].p.value, key)
  }

  lemma {:induction false} RecordOfPrefix(events: seq<Event>, n: nat, i: nat)
    requires i < n <= |events|
    ensures IsRecord(events[..n], i) == IsRecord(events, i)
  {
    var init := events[..n];
    assert forall j :: 0 <= j <= i ==> init[j] == events[j];
  }

  lemma {:induction false} NamedByPrefix(events: seq<Event>, n: nat, i: nat, key: Key)
    requires i < n <= |events|
    ensures NamedBy(events[..n], i, key) == NamedBy(events, i, key)
  {
    RecordOfPrefix(events, n, i);
  }

  lemma {:induction false} NamedEntry(s: Snapshot, i: nat)
    requires WellFormed(s) && i < |s.allowances|
    ensures forall j :: 0 <= j < |s.allowances| && j != i ==> s.allowances[j].key != s.allowances[i].key
  {
    forall j | 0 <= j < |s.allowances| && j != i
      ensures s.allowances[j].key != s.allowances[i].key
    {
      assert GoodEntry(s, i) && GoodEntry(s, j);
    }
  }

  // Each key's allowance is what the last accepted snapshot that names it says, with that version.
  lemma {:induction false} BalanceIsLastAccepted(events: seq<Event>, key: Key, i: nat, k: nat)
    requires i < |events| && IsRecord(events, i)
    requires k < |events[i].p.value.allowances| && events[i].p.value.allowances[k].key == key
    requires forall j :: i < j < |events| ==> !NamedBy(events, j, key)
    ensures var s := events[i].p.value;
      && AccountAfter(events, key).allowance == s.allowances[k].balance
      && AccountAfter(events, key).allowanceVer == s.ver
      && AccountAfter(events, key).ackWatermark >= s.allowances[k].watermark
    decreases |events|
  {
    var n := |events| - 1;
    var init := events[..n];
    if events[n].Pushed? {
      AcceptedIffRecord(events, n);
    }
    if i < n {
      RecordOfPrefix(events, n, i);
      forall j | i < j < n
        ensures !NamedBy(init, j, key)
      {
        NamedByPrefix(events, n, j, key);
      }
      BalanceIsLastAccepted(init, key, i, k);
      if events[n].Pushed? && IsRecord(events, n) {
        assert !NamedBy(events, n, key);
        UnnamedIsUntouched(AccountAfter(init, key), key, events[n].p.value.allowances, events[n].p.value.ver);
      }
    } else {
      AccountVerBehind(init, key);
      NamedEntry(events[n].p.value, k);
      NamedIsSet(AccountAfter(init, key), key, events[n].p.value.allowances, events[n].p.value.ver, k);
    }
  }

  // A key no accepted snapshot names has no allowance.
  lemma {:induction false} UnnamedHasNothing(events: seq<Event>, key: Key)
    requires forall j :: 0 <= j < |events| ==> !NamedBy(events, j, key)
    ensures AccountAfter(events, key).allowance == 0
  {
    if events != [] {
      var n := |events| - 1;
      forall j | 0 <= j < n
        ensures !NamedBy(events[..n], j, key)
      {
        NamedByPrefix(events, n, j, key);
      }
      UnnamedHasNothing(events[..n], key);
      if events[n].Pushed? {
        AcceptedIffRecord(events, n);
        if IsRecord(events, n) {
          assert !NamedBy(events, n, key);
          UnnamedIsUntouched(AccountAfter(events[..n], key), key, events[n].p.value.allowances, events[n].p.value.ver);
        }
      }
    }
  }

  lemma {:induction false} EnteredNotNegative(a: Account, key: Key, entries: seq<Entry>, ver: nat)
    requires a.allowance >= 0 && forall i :: 0 <= i < |entries| ==> entries[i].balance >= 0
    ensures Entered(a, key, entries, ver).allowance >= 0
  {
    if entries != [] {
      EnteredNotNegative(a, key, entries[..|entries| - 1], ver);
    }
  }

  // Whatever is pushed, no allowance is ever negative.
  lemma {:induction false} AllowanceNeverNegative(events: seq<Event>, key: Key)
    ensures AccountAfter(events, key).allowance >= 0
  {
    if events != [] {
      var init, last := events[..|events| - 1], events[|events| - 1];
      AllowanceNeverNegative(init, key);
      if last.Pushed? && Accepts(Ingest(init).lastVer, last.p) {
        var s := last.p.value;
        forall i | 0 <= i < |s.allowances|
          ensures s.allowances[i].balance >= 0
        {
          assert GoodEntry(s, i);
        }
        EnteredNotNegative(AccountAfter(init, key), key, s.allowances, s.ver);
      }
    }
  }

  // A version, and entries that are named, hold no debt and name each key once.
  ghost predicate Sound(s: Snapshot) {
    && s.ver != 0
    && (forall i :: 0 <= i < |s.allowances| ==>
          s.allowances[i].key.fingerprint != "" && s.allowances[i].balance >= 0)
    && (forall i, j :: 0 <= i < j < |s.allowances| ==> s.allowances[i].key != s.allowances[j].key)
  }

  lemma {:induction false} SoundIffWellFormed(s: Snapshot)
    ensures Sound(s) <==> WellFormed(s)
  {
    if WellFormed(s) {
      forall j | 0 <= j < |s.allowances|
        ensures s.allowances[j].key.fingerprint != "" && s.allowances[j].balance >= 0
        ensures forall i :: 0 <= i < j ==> s.allowances[i].key != s.allowances[j].key
      {
        assert GoodEntry(s, j);
      }
    }
    if Sound(s) {
      forall j | 0 <= j < |s.allowances|
        ensures GoodEntry(s, j)
      {
      }
    }
  }

  // ---- freshness ----

  datatype Freshness = Fresh | Stale | Expired {
    function Rank(): int {
      match this
      case Fresh => 0
      case Stale => 1
      case Expired => 2
    }
  }

  function SnapshotFreshness(ts: int, now: int, grace: int, hardMax: int, skew: int): Freshness {
    if ts <= 0 then Expired
    else
      var age := now - ts;
      if age < -skew then Expired
      else if age <= grace then Fresh
      else if age <= hardMax then Stale
      else Expired
  }

  // Trust in a snapshot only falls with time, except for one dated further ahead than the skew allows,
  // which is expired until the clock comes near enough.
  lemma {:induction false} TrustOnlyFalls(ts: int, now: int, later: int, grace: int, hardMax: int, skew: int)
    requires now <= later
    ensures SnapshotFreshness(ts, later, grace, hardMax, skew).Rank()
            >= SnapshotFreshness(ts, now, grace, hardMax, skew).Rank()
      || (ts > 0 && now < ts - skew <= later)
  {
  }

  // A snapshot is trusted at all exactly when it is dated, not from beyond the skew, and not past both limits.
  lemma {:induction false} TrustedIff(ts: int, now: int, grace: int, hardMax: int, skew: int)
    ensures SnapshotFreshness(ts, now, grace, hardMax, skew) != Expired
      <==> ts > 0 && ts - skew <= now && (now <= ts + grace || now <= ts + hardMax)
  {
  }
}

module Ingestion {
  import opened Basics
  import opened LedgerSpec
  import opened CreditLedger
  import opened IngestSpec

  datatype Invalid = ZeroVer | BadEntry(index: nat)

  // The first fault of a decoded snapshot.
  method Validate(s: Snapshot) returns (fault: Option<Invalid>)
    ensures fault == None <==> Sound(s)
    ensures fault == None <==> WellFormed(s)
    ensures fault == Some(ZeroVer) <==> s.ver == 0
    ensures fault.Some? && fault.value.BadEntry? ==>
              var i := fault.value.index;
              i < |s.allowances| && !GoodEntry(s, i) && forall j :: 0 <= j < i ==> GoodEntry(s, j)
  {
    SoundIffWellFormed(s);
    if s.ver == 0 {
      return Some(ZeroVer);
    }
    var seen: set<Key> := {};
    for i := 0 to |s.allowances|
      invariant forall j :: 0 <= j < i ==> GoodEntry(s, j)
      invariant forall key :: key in seen <==> exists j :: 0 <= j < i && s.allowances[j].key == key
    {
      var e := s.allowances[i];
      if e.key.fingerprint == "" || e.balance < 0 || e.key in seen {
        assert !GoodEntry(s, i);
        return Some(BadEntry(i));
      }
      seen := seen + {e.key};
    }
    return None;
  }

  class Ingester {
    const ledger: Ledger
    var lastVer: nat
    var lastTs: int
    var rejects: nat

    constructor (ledger: Ledger)
      ensures this.ledger == ledger && lastVer == 0 && lastTs == 0 && rejects == 0
    {
      this.ledger, lastVer, lastTs, rejects := ledger, 0, 0, 0;
    }

    // Applies a push whole or not at all: a rejected one is counted and changes nothing else.
    method Apply(p: Push) returns (applied: bool)
      requires ledger.Valid()
      modifies this, ledger`keys, ledger`repr, ledger.repr
      ensures ledger.Valid() && fresh(ledger.repr - old(ledger.repr))
      ensures applied <==> p.Some? && Sound(p.value) && p.value.ver > old(lastVer)
      ensures applied == Accepts(old(lastVer), p)
      ensures applied ==> lastVer == p.value.ver && lastTs == p.value.ts && rejects == old(rejects)
      ensures !applied ==> lastVer == old(lastVer) && lastTs == old(lastTs) && rejects == old(rejects) + 1
      ensures applied ==> forall key ::
                ledger.At(key) == Entered(old(ledger.At(key)), key, p.value.allowances, p.value.ver)
      ensures !applied ==> forall key :: ledger.At(key) == old(ledger.At(key))
    {
      if p.None? {
        rejects := rejects + 1;
        return false;
      }
      var s := p.value;
      var fault := Validate(s);
      if fault.Some? || s.ver <= lastVer {
        rejects := rejects + 1;
        return false;
      }
      SetAll(ledger, s.allowances, s.ver);
      lastVer, lastTs := s.ver, s.ts;
      return true;
    }

    static method SetAll(ledger: Ledger, entries: seq<Entry>, ver: nat)
      requires ledger.Valid()
      modifies ledger`keys, ledger`repr, ledger.repr
      ensures ledger.Valid() && fresh(ledger.repr - old(ledger.repr))
      ensures forall key :: ledger.At(key) == Entered(old(ledger.At(key)), key, entries, ver)
    {
      for n := 0 to |entries|
        invariant ledger.Valid() && fresh(ledger.repr - old(ledger.repr))
        invariant forall key :: ledger.At(key) == Entered(old(ledger.At(key)), key, entries[..n], ver)
      {
        var e := entries[n];
        assert entries[..n + 1][..n] == entries[..n];
        ledger.SetAllowance(e.key, e.balance, e.watermark, ver);
      }
      assert entries[..|entries|] == entries;
    }

    method Freshness(now: int, grace: int, hardMax: int, skew: int) returns (f: Freshness)
      ensures f != Expired <==>
                lastVer != 0 && lastTs > 0 && lastTs - skew <= now && (now <= lastTs + grace || now <= lastTs + hardMax)
      ensures f == Fresh <==> lastVer != 0 && lastTs > 0 && lastTs - skew <= now <= lastTs + grace
    {
      if lastVer == 0 {
        return Expired;
      }
      TrustedIff(lastTs, now, grace, hardMax, skew);
      return SnapshotFreshness(lastTs, now, grace, hardMax, skew);
    }
  }
}
