/** Runs of the debit log through appends, failed appends that leave any part of their line, crashes at any
    byte and restarts, with home's puller reading it throughout (proxy/debit_log.go, proxy/proxymanager.go). */
module LogRuns {
  import opened Basics
  import opened LogFormat

  datatype Op =
    | Start(fault: Fault)                            // open the log: recover and truncate
    | Append(ev: DebitEvent)                         // durable before it returns
    | FailedAppend(ev: DebitEvent, persisted: nat)   // reports an error with some bytes of the line on disk
    | CrashInAppend(ev: DebitEvent, persisted: nat)  // the process dies with some bytes of the line on disk
    | Stop                                           // crash or clean close between appends
    | Pull                                           // home asks for everything past its cursor

  // History: what failed appends have left behind the log's good lines since the log was last opened.
  datatype Left =
    | Nothing
    | Whole                       // one whole line, which recovery will keep
    | Torn(fs: seq<seq<byte>>)    // unfinished lines, glued together
    | Buried(fs: seq<seq<byte>>, glued: DebitEvent, rest: seq<byte>)  // ended by a whole line, and whatever followed

  datatype World = World(
    store: Store,
    left: Left,
    log: seq<DebitEvent>,     // history: the events whose whole line stands behind only such lines
    acked: seq<DebitEvent>,   // history: every event Append returned successfully
    pulled: seq<DebitEvent>,  // history: everything home has received
    cursor: nat)

  const EMPTY := World(Store([], false, [], 0), Nothing, [], [], [], 0)

  function Junk(c: Codec, left: Left): seq<byte> {
    match left
    case Nothing => []
    case Whole => []
    case Torn(fs) => Joined(fs)
    case Buried(fs, ev, rest) => Joined(fs) + c.Line(ev) + rest
  }

  predicate IsWhole(c: Codec, ev: DebitEvent, n: nat) {
    n >= |c.Line(ev)|
  }

  // What is left once n bytes of ev's line come on top.
  function Leave(c: Codec, left: Left, ev: DebitEvent, n: nat): Left {
    var b := Persisted(c, ev, n);
    match left
    case Nothing => if n == 0 then Nothing else if IsWhole(c, ev, n) then Whole else Torn([b])
    case Whole => if n == 0 || IsWhole(c, ev, n) then Whole else Torn([b])
    case Torn(fs) => if n == 0 then left else if IsWhole(c, ev, n) then Buried(fs, ev, []) else Torn(fs + [b])
    case Buried(fs, glued, rest) => Buried(fs, glued, rest + b)
  }

  function Grown(w: World, ev: DebitEvent): seq<DebitEvent> {
    if w.left.Nothing? then w.log + [ev] else w.log
  }

  function AfterFailure(c: Codec, w: World, ev: DebitEvent, n: nat): World {
    var stamped := Stamped(w.store, ev);
    w.(store := Failed(c, w.store, ev, n), left := Leave(c, w.left, stamped, n),
       log := if IsWhole(c, stamped, n) then Grown(w, stamped) else w.log)
  }

  ghost function Step(c: Codec, w: World, op: Op): World {
    match op
    case Start(fault) =>
      if w.store.open then w
      else
        var s := Opened(c, w.store.bytes, fault);
        w.(store := s, left := if s.open || |s.bytes| < |w.store.bytes| then Nothing else w.left)
    case Append(ev) =>
      if !w.store.open then w
      else
        var stamped := Stamped(w.store, ev);
        w.(store := Appended(c, w.store, ev), acked := w.acked + [stamped], log := Grown(w, stamped),
           left := if w.left.Nothing? then Nothing else Leave(c, w.left, stamped, |c.Line(stamped)|))
    case FailedAppend(ev, n) => if w.store.open then AfterFailure(c, w, ev, n) else w
    case CrashInAppend(ev, n) =>
      if !w.store.open then w
      else
        var w' := AfterFailure(c, w, ev, n);
        w'.(store := Closed(w'.store))
    case Stop => w.(store := Closed(w.store))
    case Pull =>
      if !w.store.open then w  // the handler answers enabled:false, and home keeps its cursor
      else w.(pulled := w.pulled + Past(w.store.events, w.cursor), cursor := w.store.seqNo)
  }

  ghost function Run(c: Codec, ops: seq<Op>): World {
    if ops == [] then EMPTY else Step(c, Run(c, ops[..|ops| - 1]), ops[|ops| - 1])
  }

  // ---- what every run keeps until an operation spoils the file ----

  // An operation spoils the file when it puts a whole line behind one that a failed append left whole, or
  // when an append succeeds behind unfinished lines.  The one harmless success there is of the very event,
  // under the same Seq, whose line an earlier failure had left whole.
  ghost predicate Spoils(c: Codec, w: World, op: Op) {
    w.store.open &&
    match op
    case Append(ev) => w.left.Whole? || (!w.left.Nothing? && w.log != w.store.events + [Stamped(w.store, ev)])
    case FailedAppend(ev, n) => w.left.Whole? && IsWhole(c, Stamped(w.store, ev), n)
    case CrashInAppend(ev, n) => w.left.Whole? && IsWhole(c, Stamped(w.store, ev), n)
    case _ => false
  }

  ghost predicate NeverSpoiled(c: Codec, ops: seq<Op>) {
    forall m :: 0 <= m < |ops| ==> !Spoils(c, Run(c, ops[..m]), ops[m])
  }

  ghost predicate LeftInv(c: Codec, left: Left) {
    (left.Torn? || left.Buried?) ==> c.Fragments(left.fs)
  }

  // The file is the log's lines, followed by bytes that recovery drops.
  ghost predicate DiskInv(c: Codec, w: World) {
    LeftInv(c, w.left) && w.store.bytes == Lines(c, w.log) + Junk(c, w.left)
  }

  // Memory holds the log, or all but the event whose line a failed append left whole.
  ghost predicate MemoryInv(w: World) {
    && w.store.seqNo == |w.store.events|
    && w.store.events <= w.log
    && |w.log| <= |w.store.events| + 1
    && (w.left.Nothing? ==> w.log == w.store.events)
    && (w.left.Whole? ==> |w.log| == |w.store.events| + 1)
    && w.cursor <= |w.store.events|
  }

  ghost predicate AckedIn(acked: seq<DebitEvent>, log: seq<DebitEvent>) {
    forall i :: 0 <= i < |acked| ==> 0 < acked[i].seqNo <= |log| && log[acked[i].seqNo - 1] == acked[i]
  }

  ghost predicate HistoryInv(w: World) {
    && Numbered(w.log)
    && (w.store.open ==> MemoryInv(w))
    && AckedIn(w.acked, w.log)
    && w.cursor <= |w.log|
    && w.pulled == w.log[..w.cursor]
  }

  ghost predicate Inv(c: Codec, w: World) {
    DiskInv(c, w) && HistoryInv(w)
  }

  lemma {:induction false} JunkIsLost(c: Codec, left: Left)
    requires c.Faithful() && c.Strict() && LeftInv(c, left)
    ensures Recover(c, Junk(c, left)) == Recovered([], 0)
  {
    match left
    case Nothing =>
    case Whole =>
    case Torn(fs) =>
      JoinedIsTorn(c, fs);
      TornIsLost(c, Joined(fs));
    case Buried(fs, ev, rest) => GluedIsLost(c, fs, ev, rest);
  }

  lemma {:induction false} DiskRecovers(c: Codec, w: World)
    requires c.Faithful() && c.Strict() && DiskInv(c, w)
    ensures Recover(c, w.store.bytes) == Recovered(w.log, |Lines(c, w.log)|)
  {
    JunkIsLost(c, w.left);
    RecoverLines(c, w.log, Junk(c, w.left));
  }

  // Leaving part of a line adds just those bytes, as junk or, on a clean end, as one more line.
  lemma {:induction false} LeaveKeepsDisk(c: Codec, log: seq<DebitEvent>, left: Left, ev: DebitEvent, n: nat)
    requires LeftInv(c, left) && !(left.Whole? && IsWhole(c, ev, n))
    ensures LeftInv(c, Leave(c, left, ev, n))
    ensures var log' := if IsWhole(c, ev, n) && left.Nothing? then log + [ev] else log;
      Lines(c, log) + Junk(c, left) + Persisted(c, ev, n) == Lines(c, log') + Junk(c, Leave(c, left, ev, n))
  {
    if IsWhole(c, ev, n) {
      LinesAppend(c, log, ev);
      WholeLeft(c, left, ev, n);
    } else {
      PartLeft(c, left, ev, n);
    }
  }

  lemma {:induction false} WholeLeft(c: Codec, left: Left, ev: DebitEvent, n: nat)
    requires LeftInv(c, left) && !left.Whole? && IsWhole(c, ev, n)
    ensures LeftInv(c, Leave(c, left, ev, n)) && Persisted(c, ev, n) == c.Line(ev)
    ensures Junk(c, Leave(c, left, ev, n)) == if left.Nothing? then [] else Junk(c, left) + c.Line(ev)
  {
  }

  lemma {:induction false} PartLeft(c: Codec, left: Left, ev: DebitEvent, n: nat)
    requires LeftInv(c, left) && !IsWhole(c, ev, n)
    ensures LeftInv(c, Leave(c, left, ev, n))
    ensures Junk(c, Leave(c, left, ev, n)) == Junk(c, left) + Persisted(c, ev, n)
  {
    var b := Persisted(c, ev, n);
    if n > 0 {
      assert b == c.encode(ev)[..n];
      assert c.Fragment(b);
    }
    match left
    case Nothing => assert n > 0 ==> Joined([b]) == b;
    case Whole => assert n > 0 ==> Joined([b]) == b;
    case Torn(fs) => assert (fs + [b])[..|fs|] == fs;
    case Buried(fs, glued, rest) =>
  }

  lemma {:induction false} StartKeepsInv(c: Codec, w: World, fault: Fault)
    requires c.Faithful() && c.Strict() && Inv(c, w)
    ensures Inv(c, Step(c, w, Start(fault)))
  {
    if !w.store.open {
      DiskRecovers(c, w);
      MaxSeqOfNumbered(w.log);
      assert w.store.bytes[..|Lines(c, w.log)|] == Lines(c, w.log);
    }
  }

  lemma {:induction false} AppendKeepsInv(c: Codec, w: World, ev: DebitEvent)
    requires Inv(c, w) && w.store.open && !Spoils(c, w, Append(ev))
    ensures Inv(c, Step(c, w, Append(ev)))
  {
    var stamped := Stamped(w.store, ev);
    LeaveKeepsDisk(c, w.log, w.left, stamped, |c.Line(stamped)|);
    if w.left.Nothing? {
      LinesAppend(c, w.log, stamped);
    }
  }

  lemma {:induction false} FailureKeepsInv(c: Codec, w: World, ev: DebitEvent, n: nat)
    requires Inv(c, w) && w.store.open && !Spoils(c, w, FailedAppend(ev, n))
    ensures Inv(c, AfterFailure(c, w, ev, n))
  {
    LeaveKeepsDisk(c, w.log, w.left, Stamped(w.store, ev), n);
  }

  lemma {:induction false} PullCompletes(log: seq<DebitEvent>, events: seq<DebitEvent>, cursor: nat)
    requires Numbered(log) && events <= log && cursor <= |events|
    ensures log[..cursor] + Past(events, cursor) == events
  {
    PastOfNumbered(events, cursor);
    assert log[..cursor] == events[..cursor];
    assert events[..cursor] + events[cursor..] == events;
  }

  lemma {:induction false} PullKeepsInv(c: Codec, w: World)
    requires Inv(c, w) && w.store.open
    ensures Inv(c, Step(c, w, Pull)) && Step(c, w, Pull).pulled == w.store.events
  {
    PullCompletes(w.log, w.store.events, w.cursor);
  }

  lemma {:induction false} StepKeepsInv(c: Codec, w: World, op: Op)
    requires c.Faithful() && c.Strict() && Inv(c, w) && !Spoils(c, w, op)
    ensures Inv(c, Step(c, w, op))
  {
    match op
    case Start(fault) => StartKeepsInv(c, w, fault);
    case Append(ev) => if w.store.open { AppendKeepsInv(c, w, ev); }
    case FailedAppend(ev, n) => if w.store.open { FailureKeepsInv(c, w, ev, n); }
    case CrashInAppend(ev, n) => if w.store.open { FailureKeepsInv(c, w, ev, n); }
    case Stop =>
    case Pull => if w.store.open { PullKeepsInv(c, w); }
  }

  lemma {:induction false} PrefixNeverSpoiled(c: Codec, ops: seq<Op>, n: nat)
    requires NeverSpoiled(c, ops) && n <= |ops|
    ensures NeverSpoiled(c, ops[..n])
  {
    forall m | 0 <= m < n
      ensures !Spoils(c, Run(c, ops[..n][..m]), ops[..n][m])
    {
      assert ops[..n][..m] == ops[..m];
    }
  }

  lemma {:induction false} UnspoiledRunKeepsInv(c: Codec, ops: seq<Op>)
    requires c.Faithful() && c.Strict() && NeverSpoiled(c, ops)
    ensures Inv(c, Run(c, ops))
  {
    if ops == [] {
      assert Lines(c, []) == [];
    } else {
      var n := |ops| - 1;
      PrefixNeverSpoiled(c, ops, n);
      UnspoiledRunKeepsInv(c, ops[..n]);
      StepKeepsInv(c, Run(c, ops[..n]), ops[n]);
    }
  }

  // ---- what recovery owes at any moment, and exactly when it pays ----

  // Recovering the file would yield Seq 1..n in order, with every acknowledged event in the slot its Seq names.
  ghost predicate Intact(c: Codec, w: World) {
    var recovered := Recover(c, w.store.bytes).events;
    Numbered(recovered) && AckedIn(w.acked, recovered)
  }

  lemma {:induction false} InvIsIntact(c: Codec, w: World)
    requires c.Faithful() && c.Strict() && Inv(c, w)
    ensures Intact(c, w) && Recover(c, w.store.bytes).events == w.log
  {
    DiskRecovers(c, w);
  }

  // A whole line behind one that was left whole repeats its Seq.
  lemma {:induction false} SecondWholeLineRepeats(c: Codec, w: World, ev: DebitEvent)
    requires c.Faithful() && Inv(c, w) && w.store.open && w.left.Whole?
    ensures !Numbered(Recover(c, w.store.bytes + c.Line(Stamped(w.store, ev))).events)
  {
    var stamped := Stamped(w.store, ev);
    var log := w.log + [stamped];
    LinesAppend(c, w.log, stamped);
    TornIsLost(c, []);
    RecoverLines(c, log, []);
    assert w.store.bytes + c.Line(stamped) == Lines(c, log) + [];
    assert log[|w.log|].seqNo == |w.log|;
  }

  lemma {:induction false} LostAck(acked: seq<DebitEvent>, log: seq<DebitEvent>, ev: DebitEvent)
    requires ev.seqNo > |log| || (0 < ev.seqNo && log[ev.seqNo - 1] != ev)
    ensures !AckedIn(acked + [ev], log)
  {
    assert (acked + [ev])[|acked|] == ev;
  }

  // A success behind unfinished lines is acknowledged and lost.
  lemma {:induction false} SuccessBehindJunkIsLost(c: Codec, w: World, ev: DebitEvent)
    requires c.Faithful() && c.Strict() && Inv(c, w) && w.store.open && (w.left.Torn? || w.left.Buried?)
    requires Spoils(c, w, Append(ev))
    ensures !AckedIn(Step(c, w, Append(ev)).acked, Recover(c, Step(c, w, Append(ev)).store.bytes).events)
  {
    var stamped := Stamped(w.store, ev);
    JunkStaysLost(c, w, stamped);
    NotInItsSlot(w, stamped);
    LostAck(w.acked, w.log, stamped);
  }

  lemma {:induction false} NotInItsSlot(w: World, ev: DebitEvent)
    requires MemoryInv(w) && ev.seqNo == w.store.seqNo + 1 && w.log != w.store.events + [ev]
    ensures ev.seqNo > |w.log| || w.log[ev.seqNo - 1] != ev
  {
    if |w.log| == |w.store.events| + 1 {
      assert w.log == w.store.events + [w.log[|w.store.events|]];
    }
  }

  // Whatever whole line comes behind unfinished ones, recovery keeps what it kept.
  lemma {:induction false} JunkStaysLost(c: Codec, w: World, ev: DebitEvent)
    requires c.Faithful() && c.Strict() && DiskInv(c, w) && (w.left.Torn? || w.left.Buried?)
    ensures Recover(c, w.store.bytes + c.Line(ev)).events == w.log
  {
    LeaveKeepsDisk(c, w.log, w.left, ev, |c.Line(ev)|);
    var left' := Leave(c, w.left, ev, |c.Line(ev)|);
    JunkIsLost(c, left');
    RecoverLines(c, w.log, Junk(c, left'));
  }

  lemma {:induction false} SpoilingBreaks(c: Codec, w: World, op: Op)
    requires c.Faithful() && c.Strict() && Inv(c, w) && Spoils(c, w, op)
    ensures !Intact(c, Step(c, w, op))
  {
    match op
    case Append(ev) =>
      if w.left.Whole? {
        SecondWholeLineRepeats(c, w, ev);
      } else {
        SuccessBehindJunkIsLost(c, w, ev);
      }
    case FailedAppend(ev, _) => SecondWholeLineRepeats(c, w, ev);
    case CrashInAppend(ev, _) => SecondWholeLineRepeats(c, w, ev);
  }

  ghost predicate AlwaysIntact(c: Codec, ops: seq<Op>) {
    forall m :: 0 <= m <= |ops| ==> Intact(c, Run(c, ops[..m]))
  }

  lemma {:induction false} OneMoreUnspoiled(c: Codec, ops: seq<Op>, op: Op)
    requires NeverSpoiled(c, ops) && !Spoils(c, Run(c, ops), op)
    ensures NeverSpoiled(c, ops + [op])
  {
    var all := ops + [op];
    forall m | 0 <= m < |all|
      ensures !Spoils(c, Run(c, all[..m]), all[m])
    {
      assert all[..m] == ops[..m];
      assert ops[..|ops|] == ops;
    }
  }

  lemma {:induction false} IntactWasNotSpoiled(c: Codec, before: seq<Op>, op: Op)
    requires c.Faithful() && c.Strict() && NeverSpoiled(c, before) && Intact(c, Run(c, before + [op]))
    ensures NeverSpoiled(c, before + [op])
  {
    var w := Run(c, before);
    OneMore(c, before, op);
    UnspoiledRunKeepsInv(c, before);
    if Spoils(c, w, op) {
      SpoilingBreaks(c, w, op);
    } else {
      OneMoreUnspoiled(c, before, op);
    }
  }

  lemma {:induction false} IntactAt(c: Codec, ops: seq<Op>, m: nat)
    requires AlwaysIntact(c, ops) && m <= |ops|
    ensures Intact(c, Run(c, ops[..m]))
  {
  }

  lemma {:induction false} IntactStepNeverSpoils(c: Codec, ops: seq<Op>, n: nat)
    requires c.Faithful() && c.Strict() && 0 < n <= |ops|
    requires NeverSpoiled(c, ops[..n - 1]) && Intact(c, Run(c, ops[..n]))
    ensures NeverSpoiled(c, ops[..n])
  {
    assert ops[..n] == ops[..n - 1] + [ops[n - 1]];
    IntactWasNotSpoiled(c, ops[..n - 1], ops[n - 1]);
  }

  lemma {:induction false} IntactStepsNeverSpoil(c: Codec, ops: seq<Op>, n: nat)
    requires c.Faithful() && c.Strict() && AlwaysIntact(c, ops) && n <= |ops|
    ensures NeverSpoiled(c, ops[..n])
  {
    if n > 0 {
      IntactStepsNeverSpoil(c, ops, n - 1);
      IntactAt(c, ops, n);
      IntactStepNeverSpoils(c, ops, n);
    }
  }

  // Through any appends, failures, crashes and restarts recovery stays gap-free, in order and complete at
  // every moment exactly when no operation ever spoils the file.
  lemma {:induction false} AlwaysIntactIffNeverSpoiled(c: Codec, ops: seq<Op>)
    requires c.Faithful() && c.Strict()
    ensures AlwaysIntact(c, ops) <==> NeverSpoiled(c, ops)
  {
    assert ops[..|ops|] == ops;
    if AlwaysIntact(c, ops) {
      IntactStepsNeverSpoil(c, ops, |ops|);
    }
    if NeverSpoiled(c, ops) {
      forall m | 0 <= m <= |ops|
        ensures Intact(c, Run(c, ops[..m]))
      {
        PrefixNeverSpoiled(c, ops, m);
        UnspoiledRunKeepsInv(c, ops[..m]);
        InvIsIntact(c, Run(c, ops[..m]));
      }
    }
  }

  lemma {:induction false} CleanRunLeavesNothing(c: Codec, ops: seq<Op>)
    requires forall i :: 0 <= i < |ops| && ops[i].FailedAppend? ==> ops[i].persisted == 0
    ensures Run(c, ops).store.open ==> Run(c, ops).left.Nothing?
  {
    if ops != [] {
      CleanRunLeavesNothing(c, ops[..|ops| - 1]);
    }
  }

  // In particular a run whose failed appends leave no bytes never spoils the file, wherever it crashes.
  lemma {:induction false} CleanFailuresNeverSpoil(c: Codec, ops: seq<Op>)
    requires forall i :: 0 <= i < |ops| && ops[i].FailedAppend? ==> ops[i].persisted == 0
    ensures NeverSpoiled(c, ops)
  {
    forall m | 0 <= m < |ops|
      ensures !Spoils(c, Run(c, ops[..m]), ops[m])
    {
      CleanRunLeavesNothing(c, ops[..m]);
    }
  }

  // ---- the failures ----

  lemma {:induction false} OneMore(c: Codec, ops: seq<Op>, op: Op)
    ensures Run(c, ops + [op]) == Step(c, Run(c, ops), op)
  {
    assert (ops + [op])[..|ops|] == ops;
  }

  lemma {:induction false} ThreeSteps(c: Codec, a: Op, b: Op, d: Op)
    ensures Run(c, [a, b, d]) == Step(c, Step(c, Step(c, EMPTY, a), b), d)
  {
    OneMore(c, [], a);
    OneMore(c, [a], b);
    OneMore(c, [a, b], d);
    assert [] + [a] == [a] && [a] + [b] == [a, b] && [a, b] + [d] == [a, b, d];
  }

  // The world after a fresh start and a failed append of e that left n bytes.
  lemma {:induction false} FailedFirst(c: Codec, e: DebitEvent, n: nat)
    ensures var w := Step(c, Step(c, EMPTY, Start(NoFault)), FailedAppend(e, n));
      w.store == Store(Persisted(c, e.(seqNo := 1), n), true, [], 0) && w.acked == []
  {
    assert Opened(c, [], NoFault) == Store([], true, [], 0);
    assert [] + Persisted(c, e.(seqNo := 1), n) == Persisted(c, e.(seqNo := 1), n);
  }

  lemma {:induction false} TwoLines(c: Codec, e: DebitEvent, f: DebitEvent)
    requires c.Faithful()
    ensures Recover(c, c.Line(e) + c.Line(f)).events == [e, f]
  {
    TornIsLost(c, []);
    RecoverLines(c, [e, f], []);
    assert [e, f][1..] == [f] && [f][1..] == [];
    assert Lines(c, [f]) == c.Line(f) + [];
    assert Lines(c, [e, f]) + [] == c.Line(e) + c.Line(f);
  }

  // A sync fails after its write reached the disk: the next append puts a second event under the same Seq.
  lemma {:induction false} SyncFailureRepeatsSeq(c: Codec, e: DebitEvent, f: DebitEvent)
    requires c.Faithful()
    ensures var e1, f1 := e.(seqNo := 1), f.(seqNo := 1);
      Recover(c, Run(c, [Start(NoFault), FailedAppend(e, |c.Line(e1)|), Append(f)]).store.bytes).events == [e1, f1]
  {
    var e1, f1 := e.(seqNo := 1), f.(seqNo := 1);
    ThreeSteps(c, Start(NoFault), FailedAppend(e, |c.Line(e1)|), Append(f));
    FailedFirst(c, e, |c.Line(e1)|);
    TwoLines(c, e1, f1);
  }

  // Two such failures do it without any append succeeding.
  lemma {:induction false} TwoSyncFailuresRepeatSeq(c: Codec, e: DebitEvent, f: DebitEvent)
    requires c.Faithful()
    ensures var e1, f1 := e.(seqNo := 1), f.(seqNo := 1);
      var w := Run(c, [Start(NoFault), FailedAppend(e, |c.Line(e1)|), FailedAppend(f, |c.Line(f1)|)]);
      w.acked == [] && Recover(c, w.store.bytes).events == [e1, f1]
  {
    var e1, f1 := e.(seqNo := 1), f.(seqNo := 1);
    ThreeSteps(c, Start(NoFault), FailedAppend(e, |c.Line(e1)|), FailedAppend(f, |c.Line(f1)|));
    FailedFirst(c, e, |c.Line(e1)|);
    TwoLines(c, e1, f1);
  }

  // A write fails one byte in: the next append is acknowledged, and recovery loses it.
  lemma {:induction false} WriteFailureLosesAcked(c: Codec, e: DebitEvent, f: DebitEvent)
    requires c.Faithful() && c.Strict() && c.encode(e.(seqNo := 1)) != []
    ensures var w := Run(c, [Start(NoFault), FailedAppend(e, 1), Append(f)]);
      w.acked == [f.(seqNo := 1)] && Recover(c, w.store.bytes).events == []
  {
    var e1, f1 := e.(seqNo := 1), f.(seqNo := 1);
    ThreeSteps(c, Start(NoFault), FailedAppend(e, 1), Append(f));
    FailedFirst(c, e, 1);
    var b := Persisted(c, e1, 1);
    assert b == c.encode(e1)[..1];
    assert c.Fragment(b) && c.Fragments([b]) && Joined([b]) == b;
    GluedIsLost(c, [b], f1, []);
    assert b + c.Line(f1) + [] == b + c.Line(f1);
  }

  lemma {:induction false} FailedTwice(c: Codec, e: DebitEvent, f: DebitEvent)
    ensures var e1, f1 := e.(seqNo := 1), f.(seqNo := 1);
      var w := Run(c, [Start(NoFault), FailedAppend(e, |c.Line(e1)|), FailedAppend(f, 1)]);
      w.acked == [] && w.store == Store(c.Line(e1) + Persisted(c, f1, 1), true, [], 0)
  {
    ThreeSteps(c, Start(NoFault), FailedAppend(e, |c.Line(e.(seqNo := 1))|), FailedAppend(f, 1));
    FailedFirst(c, e, |c.Line(e.(seqNo := 1))|);
  }

  lemma {:induction false} GluedBehindLine(c: Codec, e: DebitEvent, torn: seq<byte>)
    requires c.Faithful() && c.Strict() && c.Fragment(torn)
    ensures Recover(c, c.Line(e) + torn + c.Line(e)).events == [e]
  {
    assert c.Fragments([torn]) && Joined([torn]) == torn;
    GluedIsLost(c, [torn], e, []);
    var junk := torn + c.Line(e) + [];
    LineThenJunk(c, e, junk);
    assert c.Line(e) + torn + c.Line(e) == c.Line(e) + junk;
  }

  // The harmless success: e is left whole by a failed sync, f torn behind it, and then e is offered again.
  lemma {:induction false} RetryIsHarmless(c: Codec, e: DebitEvent, f: DebitEvent)
    requires c.Faithful() && c.Strict() && c.encode(f.(seqNo := 1)) != []
    ensures var e1 := e.(seqNo := 1);
      var before := [Start(NoFault), FailedAppend(e, |c.Line(e1)|), FailedAppend(f, 1)];
      var w := Run(c, before + [Append(e)]);
      w.acked == [e1] && Recover(c, w.store.bytes).events == [e1]
  {
    var e1, f1 := e.(seqNo := 1), f.(seqNo := 1);
    FailedTwice(c, e, f);
    OneMore(c, [Start(NoFault), FailedAppend(e, |c.Line(e1)|), FailedAppend(f, 1)], Append(e));
    assert Persisted(c, f1, 1) == c.encode(f1)[..1];
    GluedBehindLine(c, e1, Persisted(c, f1, 1));
  }

  lemma {:induction false} LineThenJunk(c: Codec, e: DebitEvent, junk: seq<byte>)
    requires c.Faithful() && Recover(c, junk) == Recovered([], 0)
    ensures Recover(c, c.Line(e) + junk).events == [e]
  {
    RecoverLines(c, [e], junk);
    assert [e][1..] == [];
    assert Lines(c, [e]) == c.Line(e);
  }

  // ---- what an unspoiled run promises ----

  // Recovery yields Seq 1..n in order with every acknowledged event in its slot, and what a running log
  // holds in memory is that but for an event whose line a failed append left whole.
  lemma {:induction false} EveryRunRecovers(c: Codec, ops: seq<Op>)
    requires c.Faithful() && c.Strict() && NeverSpoiled(c, ops)
    ensures var w := Run(c, ops); var recovered := Recover(c, w.store.bytes).events;
      && Numbered(recovered) && MaxSeq(recovered) == |recovered| && AckedIn(w.acked, recovered)
      && (w.store.open ==>
            && w.store.events <= recovered && w.store.seqNo == |w.store.events|
            && |recovered| - |w.store.events| <= (if w.left.Nothing? then 0 else 1))
  {
    UnspoiledRunKeepsInv(c, ops);
    DiskRecovers(c, Run(c, ops));
    MaxSeqOfNumbered(Run(c, ops).log);
  }

  lemma {:induction false} RunOnlyGrows(c: Codec, ops: seq<Op>, more: seq<Op>)
    ensures Run(c, ops).log <= Run(c, ops + more).log
  {
    if more == [] {
      assert ops + more == ops;
    } else {
      var init := more[..|more| - 1];
      RunOnlyGrows(c, ops, init);
      OneMore(c, ops + init, more[|more| - 1]);
      assert ops + init + [more[|more| - 1]] == ops + more;
      StepOnlyGrows(c, Run(c, ops + init), more[|more| - 1]);
    }
  }

  lemma {:induction false} StepOnlyGrows(c: Codec, w: World, op: Op)
    ensures w.log <= Step(c, w, op).log
  {
  }

  // What recovery yields only ever grows at its end, so a Seq names one event for ever.
  lemma {:induction false} LogOnlyGrows(c: Codec, ops: seq<Op>, more: seq<Op>)
    requires c.Faithful() && c.Strict() && NeverSpoiled(c, ops + more)
    ensures Recover(c, Run(c, ops).store.bytes).events <= Recover(c, Run(c, ops + more).store.bytes).events
  {
    PrefixNeverSpoiled(c, ops + more, |ops|);
    assert (ops + more)[..|ops|] == ops;
    UnspoiledRunKeepsInv(c, ops);
    UnspoiledRunKeepsInv(c, ops + more);
    DiskRecovers(c, Run(c, ops));
    DiskRecovers(c, Run(c, ops + more));
    RunOnlyGrows(c, ops, more);
  }

  // No stranded event: home has received exactly the recoverable log up to its cursor, in order; the cursor
  // never passes the durable head; and a pull from a running log leaves nothing it holds behind.
  lemma {:induction false} PullerHoldsPrefix(c: Codec, ops: seq<Op>)
    requires c.Faithful() && c.Strict() && NeverSpoiled(c, ops)
    ensures var w := Run(c, ops); var recovered := Recover(c, w.store.bytes).events;
      && w.cursor <= |recovered| && w.pulled == recovered[..w.cursor]
      && (w.store.open ==> Run(c, ops + [Pull]).pulled == w.store.events)
  {
    UnspoiledRunKeepsInv(c, ops);
    DiskRecovers(c, Run(c, ops));
    OneMore(c, ops, Pull);
    if Run(c, ops).store.open {
      PullKeepsInv(c, Run(c, ops));
    }
  }

  // ---- a puller that takes every head it is told ----

  // While the log is disabled the handler answers high_water 0, and this puller sets its cursor to that.
  ghost function NaiveStep(c: Codec, w: World, op: Op): World {
    if op.Pull? && !w.store.open then w.(cursor := 0) else Step(c, w, op)
  }

  ghost function NaiveRun(c: Codec, ops: seq<Op>): World {
    if ops == [] then EMPTY else NaiveStep(c, NaiveRun(c, ops[..|ops| - 1]), ops[|ops| - 1])
  }

  // It holds exactly the recoverable log up to its cursor.
  ghost predicate HoldsPrefix(c: Codec, w: World) {
    var recovered := Recover(c, w.store.bytes).events;
    w.cursor <= |recovered| && w.pulled == recovered[..w.cursor]
  }

  // The m-th operation pulls from a disabled log, with something pulled before.
  ghost predicate LosesItsPlace(c: Codec, ops: seq<Op>, m: nat)
    requires m < |ops|
  {
    var w := NaiveRun(c, ops[..m]);
    ops[m].Pull? && !w.store.open && w.pulled != []
  }

  // Until that happens it is the careful puller.
  lemma {:induction false} NaiveIsCareful(c: Codec, ops: seq<Op>, n: nat)
    requires c.Faithful() && c.Strict() && NeverSpoiled(c, ops) && n <= |ops|
    requires forall m :: 0 <= m < n ==> !LosesItsPlace(c, ops, m)
    ensures NaiveRun(c, ops[..n]) == Run(c, ops[..n])
  {
    if n > 0 {
      NaiveIsCareful(c, ops, n - 1);
      var before, op := ops[..n - 1], ops[n - 1];
      assert ops[..n][..n - 1] == before;
      PrefixNeverSpoiled(c, ops, n - 1);
      UnspoiledRunKeepsInv(c, before);
      assert !LosesItsPlace(c, ops, n - 1);
      SamePlace(c, Run(c, before), op);
    }
  }

  lemma {:induction false} SamePlace(c: Codec, w: World, op: Op)
    requires Inv(c, w) && !(op.Pull? && !w.store.open && w.pulled != [])
    ensures NaiveStep(c, w, op) == Step(c, w, op)
  {
    if op.Pull? && !w.store.open {
      assert |w.log[..w.cursor]| == 0;
    }
  }

  ghost predicate AlwaysHoldsPrefix(c: Codec, ops: seq<Op>) {
    forall m :: 0 <= m <= |ops| ==> HoldsPrefix(c, NaiveRun(c, ops[..m]))
  }

  lemma {:induction false} LostPlaceShows(c: Codec, ops: seq<Op>, m: nat)
    requires m < |ops| && LosesItsPlace(c, ops, m)
    ensures !HoldsPrefix(c, NaiveRun(c, ops[..m + 1]))
  {
    assert ops[..m + 1][..m] == ops[..m];
  }

  // On every unspoiled run it holds the log's prefix at every moment exactly when it never pulls from a
  // disabled log once it has pulled anything.
  lemma {:induction false} NaivePullerKeepsPlaceIff(c: Codec, ops: seq<Op>)
    requires c.Faithful() && c.Strict() && NeverSpoiled(c, ops)
    ensures AlwaysHoldsPrefix(c, ops) <==> forall m :: 0 <= m < |ops| ==> !LosesItsPlace(c, ops, m)
  {
    if m :| 0 <= m < |ops| && LosesItsPlace(c, ops, m) {
      LostPlaceShows(c, ops, m);
    } else {
      forall m | 0 <= m <= |ops|
        ensures HoldsPrefix(c, NaiveRun(c, ops[..m]))
      {
        NaiveIsCareful(c, ops, m);
        PrefixNeverSpoiled(c, ops, m);
        PullerHoldsPrefix(c, ops[..m]);
      }
    }
  }

  lemma {:induction false} NaiveOneMore(c: Codec, ops: seq<Op>, op: Op)
    ensures NaiveRun(c, ops + [op]) == NaiveStep(c, NaiveRun(c, ops), op)
  {
    assert (ops + [op])[..|ops|] == ops;
  }

  lemma {:induction false} StartedAndAppended(c: Codec, e: DebitEvent)
    ensures var w := NaiveRun(c, [Start(NoFault), Append(e)]);
      && w.store == Store(c.Line(e.(seqNo := 1)), true, [e.(seqNo := 1)], 1)
      && w.pulled == [] && w.cursor == 0
  {
    NaiveOneMore(c, [], Start(NoFault));
    NaiveOneMore(c, [Start(NoFault)], Append(e));
    assert [] + [Start(NoFault)] == [Start(NoFault)] && [Start(NoFault)] + [Append(e)] == [Start(NoFault), Append(e)];
    assert Opened(c, [], NoFault) == Store([], true, [], 0);
    assert [] + c.Line(e.(seqNo := 1)) == c.Line(e.(seqNo := 1));
  }

  // Pulls around an outage: one before, one during it and one after, of a log that holds one event.
  lemma {:induction false} PullsAroundOutage(c: Codec, w: World, e: DebitEvent)
    requires c.Faithful() && e.seqNo == 1
    requires w.store == Store(c.Line(e), true, [e], 1) && w.pulled == [] && w.cursor == 0
    ensures var up := NaiveStep(c, w, Pull);
      var down := NaiveStep(c, NaiveStep(c, up, Stop), Pull);
      NaiveStep(c, NaiveStep(c, down, Start(NoFault)), Pull).pulled == [e, e]
  {
    PastOfNumbered([e], 0);
    var up := NaiveStep(c, w, Pull);
    assert up.pulled == [e];
    var down := NaiveStep(c, NaiveStep(c, up, Stop), Pull);
    assert down.pulled == [e] && down.cursor == 0 && down.store.bytes == c.Line(e) && !down.store.open;
    ReopensWithOne(c, e);
  }

  lemma {:induction false} ReopensWithOne(c: Codec, e: DebitEvent)
    requires c.Faithful() && e.seqNo == 1
    ensures Opened(c, c.Line(e), NoFault).open && Opened(c, c.Line(e), NoFault).events == [e]
  {
    TornIsLost(c, []);
    LineThenJunk(c, e, []);
    assert c.Line(e) + [] == c.Line(e);
  }

  // A pull while the log is down, and the next one repeats what the puller already has.
  lemma {:induction false} DisabledHeadIsNotACursor(c: Codec, e: DebitEvent)
    requires c.Faithful()
    ensures var first := [Start(NoFault), Append(e)];
      NaiveRun(c, first + [Pull] + [Stop] + [Pull] + [Start(NoFault)] + [Pull]).pulled
      == [e.(seqNo := 1), e.(seqNo := 1)]
  {
    var first := [Start(NoFault), Append(e)];
    NaiveOneMore(c, first, Pull);
    NaiveOneMore(c, first + [Pull], Stop);
    NaiveOneMore(c, first + [Pull] + [Stop], Pull);
    NaiveOneMore(c, first + [Pull] + [Stop] + [Pull], Start(NoFault));
    NaiveOneMore(c, first + [Pull] + [Stop] + [Pull] + [Start(NoFault)], Pull);
    StartedAndAppended(c, e);
    PullsAroundOutage(c, NaiveRun(c, first), e.(seqNo := 1));
  }
}
