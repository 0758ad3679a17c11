/** The off-hot-path writer in front of the debit log (proxy/debit_emitter.go): a bounded channel, one
    writer, and counters for what was appended, failed and dropped. */
module EmitterSpec {

  // `offered` and `sunk` are histories: events offered before Close, and events the log wrote.
  datatype Emitter<T> = Emitter(
    capacity: nat,
    channel: seq<T>,
    hand: seq<T>,       // what the writer has taken and not finished: nothing or one event
    closed: bool,
    exited: bool,       // the writer has seen the closed channel empty and returned
    logOpen: bool,
    appended: nat,
    failed: nat,
    dropped: nat,
    offered: seq<T>,
    lost: seq<T>,       // history: dropped and failed events, in no particular order
    sunk: seq<T>)

  const DEFAULT_CAPACITY: nat := 1024

  function Capacity(bufSize: int): nat {
    if bufSize <= 0 then DEFAULT_CAPACITY else bufSize
  }

  function Started<T>(bufSize: int): Emitter<T> {
    Emitter(Capacity(bufSize), [], [], false, false, true, 0, 0, 0, [], [], [])
  }

  datatype Op<T> =
    | Emit(ev: T)
    | Receive             // the writer takes the next event
    | Finish(fails: bool) // its Append returns
    | Exit                // the writer finds the channel closed and empty
    | Close               // stop accepting; the writer drains what is buffered
    | CloseLog            // Shutdown closes the log once Close has returned

  predicate CloseReturned<T>(e: Emitter<T>) {
    e.closed && e.exited
  }

  function Step<T>(e: Emitter<T>, op: Op<T>): Emitter<T> {
    match op
    case Emit(ev) =>
      if e.closed then e
      else if |e.channel| < e.capacity then e.(channel := e.channel + [ev], offered := e.offered + [ev])
      else e.(dropped := e.dropped + 1, offered := e.offered + [ev], lost := e.lost + [ev])
    case Receive =>
      if e.hand != [] || e.channel == [] || e.exited then e
      else e.(hand := [e.channel[0]], channel := e.channel[1..])
    case Finish(fails) =>
      if e.hand == [] then e
      else if fails && e.logOpen then e.(hand := [], failed := e.failed + 1, lost := e.lost + e.hand)
      else if e.logOpen then e.(hand := [], appended := e.appended + 1, sunk := e.sunk + e.hand)
      else e.(hand := [], appended := e.appended + 1)  // a closed log answers without an error
    case Exit =>
      if e.closed && e.channel == [] && e.hand == [] then e.(exited := true) else e
    case Close => e.(closed := true)
    case CloseLog => if CloseReturned(e) then e.(logOpen := false) else e
  }

  function Run<T>(bufSize: int, ops: seq<Op<T>>): Emitter<T> {
    if ops == [] then Started(bufSize) else Step(Run(bufSize, ops[..|ops| - 1]), ops[|ops| - 1])
  }

  // `a` is `b` with some elements left out.
  ghost predicate Subsequence<T>(a: seq<T>, b: seq<T>) {
    if a == [] then true
    else if b == [] then false
    else if a[|a| - 1] == b[|b| - 1] && Subsequence(a[..|a| - 1], b[..|b| - 1]) then true
    else Subsequence(a, b[..|b| - 1])
  }

  lemma {:induction false} SubsequenceSkips<T>(a: seq<T>, b: seq<T>, x: T)
    requires Subsequence(a, b)
    ensures Subsequence(a, b + [x])
  {
    assert (b + [x])[..|b|] == b;
  }

  lemma {:induction false} SubsequenceKeeps<T>(a: seq<T>, b: seq<T>, x: T)
    requires Subsequence(a, b)
    ensures Subsequence(a + [x], b + [x])
  {
    assert (a + [x])[..|a|] == a && (b + [x])[..|b|] == b;
  }

  lemma {:induction false} SubsequenceTake<T>(a: seq<T>, b: seq<T>)
    requires a != [] && Subsequence(a, b)
    ensures Subsequence(a[..|a| - 1], b)
  {
    var b' := b[..|b| - 1];
    if a[|a| - 1] == b[|b| - 1] && Subsequence(a[..|a| - 1], b') {
      SubsequenceSkips(a[..|a| - 1], b', b[|b| - 1]);
      assert b' + [b[|b| - 1]] == b;
    } else {
      SubsequenceTake(a, b');
      SubsequenceSkips(a[..|a| - 1], b', b[|b| - 1]);
      assert b' + [b[|b| - 1]] == b;
    }
  }

  lemma {:induction false} SubsequenceDrop<T>(a: seq<T>, x: seq<T>, b: seq<T>, rest: seq<T>)
    requires |x| == 1 && Subsequence(a + x + rest, b)
    ensures Subsequence(a + rest, b)
    decreases |b|
  {
    var all := a + x + rest;
    if rest == [] {
      assert all[..|all| - 1] == a && a + rest == a;
      SubsequenceTake(all, b);
    } else {
      var b', last := b[..|b| - 1], rest[|rest| - 1];
      var rest' := rest[..|rest| - 1];
      assert all[..|all| - 1] == a + x + rest' && all[|all| - 1] == last;
      assert b' + [b[|b| - 1]] == b;
      if last == b[|b| - 1] && Subsequence(all[..|all| - 1], b') {
        SubsequenceDrop(a, x, b', rest');
        SubsequenceKeeps(a + rest', b', last);
        assert a + rest' + [last] == a + rest;
      } else {
        SubsequenceDrop(a, x, b', rest);
        SubsequenceSkips(a + rest, b', b[|b| - 1]);
      }
    }
  }

  // Everything written, in the writer's hand and buffered, in the order it went in.
  function Pipeline<T>(e: Emitter<T>): seq<T> {
    e.sunk + e.hand + e.channel
  }

  ghost predicate Inv<T>(e: Emitter<T>) {
    && |e.hand| <= 1
    && |e.channel| <= e.capacity
    && (e.exited ==> e.closed && e.channel == [] && e.hand == [])
    && (!e.logOpen ==> e.exited)
    && |e.sunk| == e.appended
    && |e.lost| == e.failed + e.dropped
    && multiset(e.offered) == multiset(Pipeline(e)) + multiset(e.lost)
    && Subsequence(Pipeline(e), e.offered)
  }

  lemma {:induction false} QueueingKeepsInv<T>(e: Emitter<T>, ev: T)
    requires Inv(e) && !e.closed && |e.channel| < e.capacity
    ensures Inv(e.(channel := e.channel + [ev], offered := e.offered + [ev]))
  {
    var e' := e.(channel := e.channel + [ev], offered := e.offered + [ev]);
    assert Pipeline(e') == Pipeline(e) + [ev];
    SubsequenceKeeps(Pipeline(e), e.offered, ev);
  }

  lemma {:induction false} DroppingKeepsInv<T>(e: Emitter<T>, ev: T)
    requires Inv(e)
    ensures Inv(e.(dropped := e.dropped + 1, offered := e.offered + [ev], lost := e.lost + [ev]))
  {
    SubsequenceSkips(Pipeline(e), e.offered, ev);
  }

  lemma {:induction false} EmitKeepsInv<T>(e: Emitter<T>, ev: T)
    requires Inv(e)
    ensures Inv(Step(e, Op.Emit(ev)))
  {
    if !e.closed {
      if |e.channel| < e.capacity {
        QueueingKeepsInv(e, ev);
      } else {
        DroppingKeepsInv(e, ev);
      }
    }
  }

  lemma {:induction false} ReceiveKeepsInv<T>(e: Emitter<T>)
    requires Inv(e)
    ensures Inv(Step(e, Op.Receive))
  {
    assert Pipeline(Step(e, Op.Receive)) == Pipeline(e);
  }

  lemma {:induction false} FinishKeepsInv<T>(e: Emitter<T>, fails: bool)
    requires Inv(e)
    ensures Inv(Step(e, Op.Finish(fails)))
  {
    if e.hand != [] {
      var e' := Step(e, Op.Finish(fails));
      if fails {
        SubsequenceDrop(e.sunk, e.hand, e.offered, e.channel);
        assert Pipeline(e') == e.sunk + e.channel;
      } else {
        assert Pipeline(e') == Pipeline(e);
      }
    }
  }

  lemma {:induction false} EveryRunKeepsInv<T>(bufSize: int, ops: seq<Op<T>>)
    ensures Inv(Run(bufSize, ops))
  {
    if ops != [] {
      var e := Run(bufSize, ops[..|ops| - 1]);
      EveryRunKeepsInv(bufSize, ops[..|ops| - 1]);
      match ops[|ops| - 1]
      case Emit(ev) => EmitKeepsInv(e, ev);
      case Receive => ReceiveKeepsInv(e);
      case Finish(fails) => FinishKeepsInv(e, fails);
      case Exit =>
      case Close =>
      case CloseLog =>
    }
  }

  // Conservation and order on every run: each event offered before Close is appended, failed, dropped,
  // buffered or in the writer's hand; what the log wrote came in the order it was offered; once Close
  // has returned nothing is left behind; and the log never closes under an accepted event.
  lemma {:induction false} EmitterConserves<T>(bufSize: int, ops: seq<Op<T>>)
    ensures var e := Run(bufSize, ops);
      && |e.offered| == e.appended + e.failed + e.dropped + |e.channel| + |e.hand|
      && multiset(e.offered) == multiset(e.sunk) + multiset(e.hand) + multiset(e.channel) + multiset(e.lost)
      && e.appended == |e.sunk|
      && |e.channel| <= Capacity(bufSize)
      && Subsequence(e.sunk + e.hand + e.channel, e.offered)
      && (CloseReturned(e) ==> e.channel == [] && e.hand == [])
      && (!e.logOpen ==> CloseReturned(e))
  {
    EveryRunKeepsInv(bufSize, ops);
    CapacityStays(bufSize, ops);
    var e := Run(bufSize, ops);
    assert |multiset(e.offered)| == |multiset(Pipeline(e))| + |multiset(e.lost)|;
  }

  lemma {:induction false} CapacityStays<T>(bufSize: int, ops: seq<Op<T>>)
    ensures Run(bufSize, ops).capacity == Capacity(bufSize)
  {
    if ops != [] {
      CapacityStays(bufSize, ops[..|ops| - 1]);
    }
  }

  // ---- what becomes of an offer ----

  // The offer finds the channel full.
  ghost predicate MeetsFull<T>(bufSize: int, e: Emitter<T>, op: Op<T>) {
    op.Emit? && !e.closed && |e.channel| >= if bufSize <= 0 then 1024 else bufSize
  }

  // The log refuses the event in hand.
  ghost predicate FailsAppend<T>(e: Emitter<T>, op: Op<T>) {
    op.Finish? && op.fails && e.hand != []
  }

  // On every run an offer to an open emitter is queued, last, exactly when the channel has room, and changes
  // nothing else; one that finds it full is dropped and counted.  A closed emitter ignores it.
  lemma {:induction false} OfferIsQueuedIff<T>(bufSize: int, ops: seq<Op<T>>, ev: T)
    ensures var e, e', op := Run(bufSize, ops), Run(bufSize, ops + [Op.Emit(ev)]), Op.Emit(ev);
      && (e.closed ==> e' == e)
      && (!e.closed && !MeetsFull(bufSize, e, op) ==>
            e' == e.(channel := e.channel + [ev], offered := e.offered + [ev]))
      && (MeetsFull(bufSize, e, op) ==>
            e' == e.(dropped := e.dropped + 1, offered := e.offered + [ev], lost := e.lost + [ev]))
  {
    CapacityStays(bufSize, ops);
    assert (ops + [Op.Emit(ev)])[..|ops|] == ops;
  }

  // How many offers of a run meet a full channel.
  ghost function FullOffers<T>(bufSize: int, ops: seq<Op<T>>): nat {
    if ops == [] then 0
    else
      var init := ops[..|ops| - 1];
      FullOffers(bufSize, init) + if MeetsFull(bufSize, Run(bufSize, init), ops[|ops| - 1]) then 1 else 0
  }

  lemma {:induction false} DroppedIsFullOffers<T>(bufSize: int, ops: seq<Op<T>>)
    ensures Run(bufSize, ops).dropped == FullOffers(bufSize, ops)
  {
    if ops != [] {
      DroppedIsFullOffers(bufSize, ops[..|ops| - 1]);
      CapacityStays(bufSize, ops[..|ops| - 1]);
    }
  }

  // The m-th operation of a run loses an event.
  ghost predicate Loses<T>(bufSize: int, ops: seq<Op<T>>, m: nat)
    requires m < |ops|
  {
    MeetsFull(bufSize, Run(bufSize, ops[..m]), ops[m]) || FailsAppend(Run(bufSize, ops[..m]), ops[m])
  }

  lemma {:induction false} LosesInPrefix<T>(bufSize: int, ops: seq<Op<T>>, n: nat, m: nat)
    requires m < n <= |ops|
    ensures Loses(bufSize, ops[..n], m) == Loses(bufSize, ops, m)
  {
    assert ops[..n][..m] == ops[..m];
  }

  lemma {:induction false} LastLossShows<T>(bufSize: int, ops: seq<Op<T>>)
    requires ops != []
    ensures var n := |ops| - 1;
      Run(bufSize, ops).lost == [] <==> Run(bufSize, ops[..n]).lost == [] && !Loses(bufSize, ops, n)
  {
    var n := |ops| - 1;
    EveryRunKeepsInv(bufSize, ops[..n]);
    CapacityStays(bufSize, ops[..n]);
    LossShows(bufSize, Run(bufSize, ops[..n]), ops[n]);
  }

  lemma {:induction false} NothingLostIff<T>(bufSize: int, ops: seq<Op<T>>)
    ensures Run(bufSize, ops).lost == [] <==> forall m :: 0 <= m < |ops| ==> !Loses(bufSize, ops, m)
  {
    if ops != [] {
      var n := |ops| - 1;
      NothingLostIff(bufSize, ops[..n]);
      LastLossShows(bufSize, ops);
      forall m | 0 <= m < n
        ensures Loses(bufSize, ops[..n], m) == Loses(bufSize, ops, m)
      {
        LosesInPrefix(bufSize, ops, n, m);
      }
    }
  }

  lemma {:induction false} LossShows<T>(bufSize: int, e: Emitter<T>, op: Op<T>)
    requires Inv(e) && e.capacity == Capacity(bufSize)
    ensures Step(e, op).lost == [] <==> e.lost == [] && !MeetsFull(bufSize, e, op) && !FailsAppend(e, op)
  {
  }

  lemma {:induction false} SubsequenceIsShorter<T>(a: seq<T>, b: seq<T>)
    requires Subsequence(a, b)
    ensures |a| <= |b| && (|a| == |b| ==> a == b)
  {
    if a != [] {
      var a', b' := a[..|a| - 1], b[..|b| - 1];
      if a[|a| - 1] == b[|b| - 1] && Subsequence(a', b') {
        SubsequenceIsShorter(a', b');
        assert a == a' + [a[|a| - 1]] && b == b' + [b[|b| - 1]];
      } else {
        SubsequenceIsShorter(a, b');
      }
    }
  }

  // Once Close has returned, the log holds everything offered, in order, exactly when no offer met a full
  // channel and no append failed.
  lemma {:induction false} LogHoldsAllIff<T>(bufSize: int, ops: seq<Op<T>>)
    requires CloseReturned(Run(bufSize, ops))
    ensures Run(bufSize, ops).sunk == Run(bufSize, ops).offered
      <==> forall m :: 0 <= m < |ops| ==> !Loses(bufSize, ops, m)
  {
    var e := Run(bufSize, ops);
    EveryRunKeepsInv(bufSize, ops);
    NothingLostIff(bufSize, ops);
    assert Pipeline(e) == e.sunk;
    assert |multiset(e.offered)| == |multiset(e.sunk)| + |multiset(e.lost)|;
    SubsequenceIsShorter(e.sunk, e.offered);
  }

  // After Close, Emit is a no-op for good.
  lemma {:induction false} ClosedAcceptsNothing<T>(bufSize: int, ops: seq<Op<T>>, more: seq<Op<T>>)
    requires Run(bufSize, ops).closed
    ensures Run(bufSize, ops + more).closed && Run(bufSize, ops + more).offered == Run(bufSize, ops).offered
  {
    if more == [] {
      assert ops + more == ops;
    } else {
      ClosedAcceptsNothing(bufSize, ops, more[..|more| - 1]);
      assert (ops + more)[..|ops + more| - 1] == ops + more[..|more| - 1];
    }
  }
}

module DebitEmitter {
  import opened EmitterSpec

  // One method per atomic step: Emit and Close run on callers, Receive and Finish on the one writer.
  class Emitter<T> {
    const capacity: nat
    var channel: seq<T>
    var hand: seq<T>
    var closed: bool
    var exited: bool
    var appended: nat
    var failed: nat
    var dropped: nat
    ghost var logOpen: bool
    ghost var offered: seq<T>
    ghost var lost: seq<T>
    ghost var sunk: seq<T>

    ghost function View(): EmitterSpec.Emitter<T>
      reads this
    {
      EmitterSpec.Emitter(
        capacity, channel, hand, closed, exited, logOpen, appended, failed, dropped, offered, lost, sunk)
    }

    constructor (bufSize: int)
      ensures View() == Started(bufSize)
      ensures capacity == if bufSize <= 0 then 1024 else bufSize
    {
      capacity := if bufSize <= 0 then DEFAULT_CAPACITY else bufSize;
      channel, hand, closed, exited, appended, failed, dropped := [], [], false, false, 0, 0, 0;
      logOpen, offered, lost, sunk := true, [], [], [];
    }

    method Emit(ev: T)
      modifies this
      ensures old(closed) ==> View() == old(View())
      ensures !old(closed) && old(|channel|) < capacity ==>
                channel == old(channel) + [ev] && dropped == old(dropped) && lost == old(lost)
      ensures !old(closed) && old(|channel|) >= capacity ==>
                channel == old(channel) && dropped == old(dropped) + 1 && lost == old(lost) + [ev]
      ensures !old(closed) ==> offered == old(offered) + [ev]
      ensures hand == old(hand) && appended == old(appended) && failed == old(failed) && sunk == old(sunk)
      ensures View() == Step(old(View()), Op.Emit(ev))
    {
      if closed {
        return;
      }
      offered := offered + [ev];
      if |channel| < capacity {
        channel := channel + [ev];
      } else {
        dropped := dropped + 1;
        lost := lost + [ev];
      }
    }

    method Receive()
      requires hand == [] && channel != [] && !exited
      modifies this
      ensures View() == Step(old(View()), Op.Receive)
    {
      hand, channel := [channel[0]], channel[1..];
    }

    method Finish(fails: bool)
      requires hand != [] && logOpen
      modifies this
      ensures View() == Step(old(View()), Op.Finish(fails))
    {
      if fails {
        failed := failed + 1;
        lost := lost + hand;
      } else {
        appended := appended + 1;
        sunk := sunk + hand;
      }
      hand := [];
    }

    // One turn of the writer's loop: take an event, or finish the one in hand.
    method WriterTurn(fails: bool)
      requires Inv(View()) && logOpen && !exited && (hand != [] || channel != [])
      modifies this
      ensures Inv(View()) && logOpen && !exited && closed == old(closed) && Steady()
      ensures appended + failed + |hand| + |channel| == old(appended + failed + |hand| + |channel|)
      ensures 2 * |channel| + |hand| < old(2 * |channel| + |hand|)
    {
      if hand == [] {
        ReceiveKeepsInv(View());
        Receive();
      } else {
        FinishKeepsInv(View(), fails);
        Finish(fails);
      }
    }

    // The writer accepts and drops nothing, and the log only grows.
    twostate predicate Steady()
      reads this
    {
      offered == old(offered) && dropped == old(dropped) && old(sunk) <= sunk
    }

    // The first call stops accepting and waits for the writer, which finishes its event, drains the
    // channel and returns.  A call that finds the emitter already closed returns at once.  `fails` says
    // how each Append turns out.
    method Close(fails: nat -> bool)
      requires Inv(View())
      modifies this
      ensures Inv(View()) && logOpen == old(logOpen) && closed && Steady()
      ensures old(closed) ==> View() == old(View())
      ensures !old(closed) ==> CloseReturned(View()) && channel == [] && hand == []
      ensures !old(closed) ==> appended + failed == old(appended + failed + |hand| + |channel|)
    {
      if closed {
        return;
      }
      closed := true;
      var n: nat := 0;
      while hand != [] || channel != []
        invariant Inv(View()) && closed && logOpen && !exited && Steady()
        invariant appended + failed + |hand| + |channel| == old(appended + failed + |hand| + |channel|)
        decreases 2 * |channel| + |hand|
      {
        WriterTurn(fails(n));
        n := n + 1;
      }
      exited := true;
    }
  }
}
