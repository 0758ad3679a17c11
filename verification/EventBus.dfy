/** The event dispatcher (event/event.go): a sorted copy-on-write registry of groups, and groups that
    deliver every event to every subscriber through two swapped buffers with backpressure. */
module EventSpec {

  // What a consumer holds: its queue, the rest of the batch Listen is working through, and (history)
  // what its handler has been given.
  datatype Buffers<T> = Buffers(queued: seq<T>, inProcess: seq<T>, handled: seq<T>) {
    function All(): seq<T> {
      handled + inProcess + queued
    }

    predicate Busy() {
      inProcess != [] || queued != []
    }
  }

  function Gained<T>(b: Buffers<T>, ev: T): Buffers<T> {
    b.(queued := b.queued + [ev])
  }

  function Swapped<T>(b: Buffers<T>): Buffers<T> {
    if b.inProcess != [] || b.queued == [] then b else Buffers([], b.queued, b.handled)
  }

  function HandledNext<T>(b: Buffers<T>): Buffers<T> {
    if b.inProcess == [] then b else Buffers(b.queued, b.inProcess[1..], b.handled + [b.inProcess[0]])
  }

  // Whether handling the next event ends the batch, at which Listen signals the group's condition.
  predicate EndsBatch<T>(b: Buffers<T>) {
    |b.inProcess| == 1
  }

  // The condition variable is the number of times it has been signalled: whoever began to wait at the
  // current number is still waiting.

  // One consumer, subscribed during the stretch [joined, left) of the group's published events; `left` is
  // -1 while it still is.
  datatype Sub<T> = Sub(
    buffers: Buffers<T>,
    stop: bool,
    returned: bool,      // Listen has returned
    joined: nat,
    left: int,
    waitsAt: int)        // the number at which it last began to wait, -1 before the first

  // One publisher with its event.
  datatype Pub<T> = Pub(ev: T, sent: bool, waitsAt: int)

  datatype Group<T> = Group(maxQueue: int, subs: seq<Sub<T>>, pubs: seq<Pub<T>>, published: seq<T>, signals: nat)

  datatype Op<T> =
    | Add
    | Del(i: nat)
    | Offer(ev: T)      // a publisher calls Broadcast
    | Attempt(p: nat)   // it holds the lock: sends, or waits for room
    | Swap(i: nat)      // Listen takes the queue as its next batch
    | Handle(i: nat)    // the handler runs; the end of a batch signals
    | Settle(i: nat)    // Listen finds its queue empty: returns if stopped, else waits

  // Backpressure: a publisher waits while any subscribed queue is at the limit.
  predicate Room<T>(g: Group<T>) {
    g.maxQueue > 0 && forall i :: 0 <= i < |g.subs| && g.subs[i].left < 0 ==> |g.subs[i].buffers.queued| < g.maxQueue
  }

  function Sent<T>(s: Sub<T>, ev: T): Sub<T> {
    if s.left < 0 then s.(buffers := Gained(s.buffers, ev)) else s
  }

  function SentAll<T>(subs: seq<Sub<T>>, ev: T): (r: seq<Sub<T>>)
    ensures |r| == |subs| && forall i :: 0 <= i < |subs| ==> r[i] == Sent(subs[i], ev)
  {
    if subs == [] then [] else SentAll(subs[..|subs| - 1], ev) + [Sent(subs[|subs| - 1], ev)]
  }

  function Left<T>(s: Sub<T>, at: nat): Sub<T> {
    if s.left < 0 then s.(stop := true, left := at) else s
  }

  function Settled<T>(s: Sub<T>, signals: nat): Sub<T> {
    if s.buffers.Busy() || s.waitsAt == signals then s
    else if s.stop then s.(returned := true)
    else s.(waitsAt := signals)
  }

  function SendFrom<T>(g: Group<T>, p: nat): Group<T>
    requires p < |g.pubs|
  {
    var ev := g.pubs[p].ev;
    Group(g.maxQueue, SentAll(g.subs, ev), g.pubs[p := g.pubs[p].(sent := true)], g.published + [ev], g.signals + 1)
  }

  function Attempted<T>(g: Group<T>, p: nat): Group<T>
    requires p < |g.pubs|
  {
    if g.pubs[p].sent || g.pubs[p].waitsAt == g.signals then g
    else if Room(g) then SendFrom(g, p)
    else g.(pubs := g.pubs[p := g.pubs[p].(waitsAt := g.signals)])
  }

  function WithSub<T>(g: Group<T>, i: nat, s: Sub<T>): Group<T>
    requires i < |g.subs|
  {
    g.(subs := g.subs[i := s])
  }

  function Step<T>(g: Group<T>, op: Op<T>): Group<T> {
    match op
    case Add => g.(subs := g.subs + [Sub(Buffers([], [], []), false, false, |g.published|, -1, -1)])
    case Del(i) => if i < |g.subs| then WithSub(g, i, Left(g.subs[i], |g.published|)) else g
    case Offer(ev) => g.(pubs := g.pubs + [Pub(ev, false, -1)])
    case Attempt(p) => if p < |g.pubs| then Attempted(g, p) else g
    case Swap(i) => if i < |g.subs| then WithSub(g, i, g.subs[i].(buffers := Swapped(g.subs[i].buffers))) else g
    case Handle(i) =>
      if i >= |g.subs| then g
      else
        var g' := WithSub(g, i, g.subs[i].(buffers := HandledNext(g.subs[i].buffers)));
        if EndsBatch(g.subs[i].buffers) then g'.(signals := g.signals + 1) else g'
    case Settle(i) => if i < |g.subs| then WithSub(g, i, Settled(g.subs[i], g.signals)) else g
  }

  function Run<T>(maxQueue: int, ops: seq<Op<T>>): Group<T> {
    if ops == [] then Group(maxQueue, [], [], [], 0) else Step(Run(maxQueue, ops[..|ops| - 1]), ops[|ops| - 1])
  }

  // Every event published while the consumer was subscribed, in order.
  function Due<T>(s: Sub<T>, published: seq<T>): seq<T>
    requires s.joined <= |published| && s.left <= |published| && (s.left >= 0 ==> s.joined <= s.left)
  {
    published[s.joined..(if s.left < 0 then |published| else s.left)]
  }

  ghost predicate SubInv<T>(s: Sub<T>, maxQueue: int, published: seq<T>, signals: nat) {
    && s.joined <= |published| && -1 <= s.left <= |published|
    && (s.left >= 0 ==> s.joined <= s.left)
    && (s.stop <==> s.left >= 0)
    && s.buffers.All() == Due(s, published)
    && (s.buffers.queued != [] ==> |s.buffers.queued| <= maxQueue)
    && (s.returned ==> s.stop && !s.buffers.Busy())
    && s.waitsAt <= signals
    && (s.waitsAt == signals ==> !s.buffers.Busy())
  }

  ghost predicate SubsInv<T>(g: Group<T>) {
    forall i :: 0 <= i < |g.subs| ==> SubInv(g.subs[i], g.maxQueue, g.published, g.signals)
  }

  // Some consumer, subscribed or not, has events to work through.
  ghost predicate AnyBusy<T>(g: Group<T>) {
    exists i :: 0 <= i < |g.subs| && g.subs[i].buffers.Busy()
  }

  ghost predicate Waits<T>(p: Pub<T>, signals: nat) {
    !p.sent && p.waitsAt == signals
  }

  ghost predicate PubsInv<T>(g: Group<T>) {
    && (forall p :: 0 <= p < |g.pubs| ==> g.pubs[p].waitsAt <= g.signals)
    && (g.maxQueue > 0 ==> forall p :: 0 <= p < |g.pubs| && Waits(g.pubs[p], g.signals) ==> AnyBusy(g))
  }

  ghost predicate Inv<T>(g: Group<T>) {
    SubsInv(g) && PubsInv(g)
  }

  lemma {:induction false} SentKeepsInv<T>(s: Sub<T>, maxQueue: int, published: seq<T>, signals: nat, ev: T)
    requires SubInv(s, maxQueue, published, signals) && (s.left < 0 ==> |s.buffers.queued| < maxQueue)
    ensures SubInv(Sent(s, ev), maxQueue, published + [ev], signals + 1)
  {
    if s.left < 0 {
      assert Due(Sent(s, ev), published + [ev]) == Due(s, published) + [ev];
      assert Gained(s.buffers, ev).All() == s.buffers.All() + [ev];
    } else {
      assert Due(s, published + [ev]) == Due(s, published);
    }
  }

  lemma {:induction false} OwnStepKeepsInv<T>(s: Sub<T>, maxQueue: int, published: seq<T>, signals: nat)
    requires SubInv(s, maxQueue, published, signals)
    ensures SubInv(Left(s, |published|), maxQueue, published, signals)
    ensures SubInv(s.(buffers := Swapped(s.buffers)), maxQueue, published, signals)
    ensures SubInv(s.(buffers := HandledNext(s.buffers)), maxQueue, published, signals)
    ensures SubInv(Settled(s, signals), maxQueue, published, signals)
  {
    assert Swapped(s.buffers).All() == s.buffers.All();
    assert HandledNext(s.buffers).All() == s.buffers.All();
  }

  lemma {:induction false} SendKeepsInv<T>(g: Group<T>, p: nat)
    requires Inv(g) && p < |g.pubs| && Room(g)
    ensures Inv(SendFrom(g, p))
  {
    forall i | 0 <= i < |g.subs|
      ensures SubInv(Sent(g.subs[i], g.pubs[p].ev), g.maxQueue, g.published + [g.pubs[p].ev], g.signals + 1)
    {
      SentKeepsInv(g.subs[i], g.maxQueue, g.published, g.signals, g.pubs[p].ev);
    }
  }

  // A publisher waits because some subscriber has a full queue, which is work to be done.
  lemma {:induction false} NoRoomIsBusy<T>(g: Group<T>)
    requires g.maxQueue > 0 && !Room(g)
    ensures AnyBusy(g)
  {
    var i :| 0 <= i < |g.subs| && g.subs[i].left < 0 && |g.subs[i].buffers.queued| >= g.maxQueue;
    assert g.subs[i].buffers.Busy();
  }

  lemma {:induction false} AttemptKeepsInv<T>(g: Group<T>, p: nat)
    requires Inv(g) && p < |g.pubs|
    ensures Inv(Attempted(g, p))
  {
    if !g.pubs[p].sent && g.pubs[p].waitsAt != g.signals {
      if Room(g) {
        SendKeepsInv(g, p);
      } else if g.maxQueue > 0 {
        NoRoomIsBusy(g);
        assert AnyBusy(Attempted(g, p)) by {
          var i :| 0 <= i < |g.subs| && g.subs[i].buffers.Busy();
          assert Attempted(g, p).subs[i].buffers.Busy();
        }
      }
    }
  }

  // Replacing one consumer by another that is busy if it was.
  lemma {:induction false} OneSubKeepsInv<T>(g: Group<T>, i: nat, s: Sub<T>)
    requires Inv(g) && i < |g.subs| && SubInv(s, g.maxQueue, g.published, g.signals)
    requires g.subs[i].buffers.Busy() ==> s.buffers.Busy()
    ensures Inv(WithSub(g, i, s))
  {
    if AnyBusy(g) {
      var j :| 0 <= j < |g.subs| && g.subs[j].buffers.Busy();
      assert WithSub(g, i, s).subs[j].buffers.Busy();
    }
  }

  lemma {:induction false} AddKeepsInv<T>(g: Group<T>)
    requires Inv(g)
    ensures Inv(Step(g, Add))
  {
    if AnyBusy(g) {
      var j :| 0 <= j < |g.subs| && g.subs[j].buffers.Busy();
      assert Step(g, Add).subs[j].buffers.Busy();
    }
  }

  lemma {:induction false} OfferKeepsInv<T>(g: Group<T>, ev: T)
    requires Inv(g)
    ensures Inv(Step(g, Offer(ev)))
  {
    assert AnyBusy(g) ==> AnyBusy(Step(g, Offer(ev)));
  }

  // A signal ends every wait, whatever becomes of one consumer beside it.
  lemma {:induction false} SignalKeepsInv<T>(g: Group<T>, i: nat, s: Sub<T>)
    requires Inv(g) && i < |g.subs| && SubInv(s, g.maxQueue, g.published, g.signals)
    ensures Inv(WithSub(g, i, s).(signals := g.signals + 1))
  {
  }

  lemma {:induction false} HandleKeepsInv<T>(g: Group<T>, i: nat)
    requires Inv(g) && i < |g.subs|
    ensures Inv(Step(g, Handle(i)))
  {
    var s' := g.subs[i].(buffers := HandledNext(g.subs[i].buffers));
    OwnStepKeepsInv(g.subs[i], g.maxQueue, g.published, g.signals);
    if EndsBatch(g.subs[i].buffers) {
      SignalKeepsInv(g, i, s');
    } else {
      OneSubKeepsInv(g, i, s');
    }
  }

  lemma {:induction false} OwnKeepsInv<T>(g: Group<T>, i: nat, s: Sub<T>)
    requires Inv(g) && i < |g.subs|
    requires || s == Left(g.subs[i], |g.published|) || s == Settled(g.subs[i], g.signals)
             || s == g.subs[i].(buffers := Swapped(g.subs[i].buffers))
    ensures Inv(WithSub(g, i, s))
  {
    OwnStepKeepsInv(g.subs[i], g.maxQueue, g.published, g.signals);
    OneSubKeepsInv(g, i, s);
  }

  lemma {:induction false} StepKeepsInv<T>(g: Group<T>, op: Op<T>)
    requires Inv(g)
    ensures Inv(Step(g, op)) && Step(g, op).maxQueue == g.maxQueue
  {
    match op
    case Add => AddKeepsInv(g);
    case Offer(ev) => OfferKeepsInv(g, ev);
    case Attempt(p) => if p < |g.pubs| { AttemptKeepsInv(g, p); }
    case Del(i) => if i < |g.subs| { OwnKeepsInv(g, i, Left(g.subs[i], |g.published|)); }
    case Swap(i) => if i < |g.subs| { OwnKeepsInv(g, i, g.subs[i].(buffers := Swapped(g.subs[i].buffers))); }
    case Handle(i) => if i < |g.subs| { HandleKeepsInv(g, i); }
    case Settle(i) => if i < |g.subs| { OwnKeepsInv(g, i, Settled(g.subs[i], g.signals)); }
  }

  lemma {:induction false} EveryRunKeepsInv<T>(maxQueue: int, ops: seq<Op<T>>)
    ensures Inv(Run(maxQueue, ops)) && Run(maxQueue, ops).maxQueue == maxQueue
  {
    if ops != [] {
      EveryRunKeepsInv(maxQueue, ops[..|ops| - 1]);
      StepKeepsInv(Run(maxQueue, ops[..|ops| - 1]), ops[|ops| - 1]);
    }
  }

  // On every interleaving, for every consumer ever added: what it has handled, is handling and has
  // queued is exactly what was published while it was subscribed, in order and once each; no queue
  // passes the limit; and a consumer that has returned had been removed and had handled all of it.
  lemma {:induction false} EveryEventDeliveredOnce<T>(maxQueue: int, ops: seq<Op<T>>, i: nat)
    requires i < |Run(maxQueue, ops).subs|
    ensures var g := Run(maxQueue, ops); var s := g.subs[i];
      && s.joined <= |g.published| && s.left <= |g.published| && (s.left >= 0 ==> s.joined <= s.left)
      && s.buffers.All() == Due(s, g.published)
      && |s.buffers.queued| <= (if maxQueue < 0 then 0 else maxQueue)
      && (s.returned ==> s.left >= 0 && s.buffers.handled == Due(s, g.published))
  {
    EveryRunKeepsInv(maxQueue, ops);
    var s := Run(maxQueue, ops).subs[i];
    if s.returned {
      assert s.buffers.handled + [] + [] == s.buffers.handled;
    }
  }

  // On every run an event offered now is published, behind all the others and at the tail of every
  // subscribed queue, exactly when the limit leaves room in each of them; otherwise its publisher waits.
  lemma {:induction false} OfferIsSentIff<T>(maxQueue: int, ops: seq<Op<T>>, ev: T)
    ensures var g := Run(maxQueue, ops); var p := |g.pubs|;
      var g' := Run(maxQueue, ops + [Offer(ev)] + [Attempt(p)]);
      && |g'.pubs| == p + 1 && |g'.subs| == |g.subs|
      && (g'.pubs[p].sent <==>
            maxQueue > 0
            && forall i :: 0 <= i < |g.subs| && g.subs[i].left < 0 ==> |g.subs[i].buffers.queued| < maxQueue)
      && g'.published == (if g'.pubs[p].sent then g.published + [ev] else g.published)
      && (forall i :: 0 <= i < |g.subs| ==>
            g'.subs[i].buffers.queued
            == if g'.pubs[p].sent && g.subs[i].left < 0 then g.subs[i].buffers.queued + [ev]
               else g.subs[i].buffers.queued)
      && (g'.pubs[p].sent || Waits(g'.pubs[p], g'.signals))
  {
    var g := Run(maxQueue, ops);
    EveryRunKeepsInv(maxQueue, ops);
    assert (ops + [Offer(ev)])[..|ops|] == ops;
    var all := ops + [Offer(ev)] + [Attempt(|g.pubs|)];
    assert all[..|all| - 1] == ops + [Offer(ev)];
    AttemptIs(Step(g, Offer(ev)), |g.pubs|);
  }

  lemma {:induction false} AttemptIs<T>(g: Group<T>, p: nat)
    requires p < |g.pubs| && !g.pubs[p].sent && g.pubs[p].waitsAt < g.signals
    ensures var g' := Step(g, Attempt(p));
      && |g'.pubs| == |g.pubs| && |g'.subs| == |g.subs|
      && (g'.pubs[p].sent <==> Room(g))
      && g'.published == (if Room(g) then g.published + [g.pubs[p].ev] else g.published)
      && (forall i :: 0 <= i < |g.subs| ==>
            g'.subs[i] == if Room(g) then Sent(g.subs[i], g.pubs[p].ev) else g.subs[i])
      && (Room(g) || Waits(g'.pubs[p], g'.signals))
  {
  }

  // ---- who waits, and for what ----

  // No publisher is stranded: while one waits, some consumer has work to do and is not itself waiting.
  lemma {:induction false} WaitingPublisherHasWorker<T>(maxQueue: int, ops: seq<Op<T>>, p: nat)
    requires maxQueue > 0
    requires p < |Run(maxQueue, ops).pubs| && Waits(Run(maxQueue, ops).pubs[p], Run(maxQueue, ops).signals)
    ensures var g := Run(maxQueue, ops);
      exists i :: 0 <= i < |g.subs| && g.subs[i].buffers.Busy() && g.subs[i].waitsAt < g.signals
  {
    EveryRunKeepsInv(maxQueue, ops);
    var g := Run(maxQueue, ops);
    var i :| 0 <= i < |g.subs| && g.subs[i].buffers.Busy();
    assert SubInv(g.subs[i], g.maxQueue, g.published, g.signals);
  }

  // The rest of a batch, handled with nothing else in between.
  function Drained<T>(g: Group<T>, i: nat, n: nat): Group<T> {
    if n == 0 then g else Step(Drained(g, i, n - 1), Handle(i))
  }

  // Nothing but consumer i's buffers and the signals has changed.
  ghost predicate OnlyWorked<T>(g: Group<T>, g': Group<T>, i: nat) {
    && g'.maxQueue == g.maxQueue && g'.pubs == g.pubs && g'.published == g.published && g'.signals >= g.signals
    && |g'.subs| == |g.subs| && forall j :: 0 <= j < |g.subs| && j != i ==> g'.subs[j] == g.subs[j]
  }

  // That work ends in a signal: as many events as the batch has left.
  lemma {:induction false} BatchEndsInSignal<T>(g: Group<T>, i: nat, n: nat)
    requires i < |g.subs| && n <= |g.subs[i].buffers.inProcess|
    ensures var g' := Drained(g, i, n); var b := g.subs[i].buffers;
      && OnlyWorked(g, g', i)
      && g'.subs[i].buffers.queued == b.queued && g'.subs[i].buffers.inProcess == b.inProcess[n..]
      && g'.signals == g.signals + if n > 0 && n == |b.inProcess| then 1 else 0
  {
    if n > 0 {
      BatchEndsInSignal(g, i, n - 1);
    }
  }

  // Consumer i finishes its batch, takes its queue as the next one and handles that.
  function WorkedOff<T>(g: Group<T>, i: nat): Group<T>
    requires i < |g.subs|
  {
    var b := g.subs[i].buffers;
    Drained(Step(Drained(g, i, |b.inProcess|), Swap(i)), i, |b.queued|)
  }

  lemma {:induction false} WorkedOffIsIdle<T>(g: Group<T>, i: nat)
    requires i < |g.subs|
    ensures OnlyWorked(g, WorkedOff(g, i), i) && !WorkedOff(g, i).subs[i].buffers.Busy()
    ensures g.subs[i].buffers.Busy() ==> WorkedOff(g, i).signals > g.signals
  {
    var b := g.subs[i].buffers;
    BatchEndsInSignal(g, i, |b.inProcess|);
    var g1 := Step(Drained(g, i, |b.inProcess|), Swap(i));
    assert g1.subs[i].buffers.inProcess == b.queued && g1.subs[i].buffers.queued == [];
    BatchEndsInSignal(g1, i, |b.queued|);
  }

  // Consumer after consumer works off what it holds.
  function AllWorkedOff<T>(g: Group<T>, n: nat): Group<T> {
    if n == 0 then g
    else
      var g' := AllWorkedOff(g, n - 1);
      if n <= |g'.subs| then WorkedOff(g', n - 1) else g'
  }

  lemma {:induction false} AllIdle<T>(g: Group<T>, n: nat)
    requires n <= |g.subs|
    ensures var g' := AllWorkedOff(g, n);
      && g'.maxQueue == g.maxQueue && g'.pubs == g.pubs && g'.published == g.published
      && |g'.subs| == |g.subs| && g'.signals >= g.signals
      && (forall j :: 0 <= j < n ==> !g'.subs[j].buffers.Busy())
      && (forall j :: n <= j < |g.subs| ==> g'.subs[j] == g.subs[j])
      && ((exists j :: 0 <= j < n && g.subs[j].buffers.Busy()) ==> g'.signals > g.signals)
  {
    if n > 0 {
      AllIdle(g, n - 1);
      var before := AllWorkedOff(g, n - 1);
      assert before.subs[n - 1] == g.subs[n - 1];
      WorkedOffIsIdle(before, n - 1);
    }
  }

  // No deadlock: at any moment of any run, once the consumers have worked off what they hold, a publisher
  // that was waiting has been woken and finds room.
  lemma {:induction false} WaitingPublisherGetsThrough<T>(maxQueue: int, ops: seq<Op<T>>, p: nat)
    requires maxQueue > 0
    requires p < |Run(maxQueue, ops).pubs| && Waits(Run(maxQueue, ops).pubs[p], Run(maxQueue, ops).signals)
    ensures var g := Run(maxQueue, ops); var g' := Step(AllWorkedOff(g, |g.subs|), Attempt(p));
      p < |g'.pubs| && g'.pubs[p].sent && g'.published == g.published + [g.pubs[p].ev]
  {
    var g := Run(maxQueue, ops);
    EveryRunKeepsInv(maxQueue, ops);
    AllIdle(g, |g.subs|);
  }

  // With no room to give, nothing is ever published.
  lemma {:induction false} NoRoomPublishesNothing<T>(maxQueue: int, ops: seq<Op<T>>)
    requires maxQueue <= 0
    ensures Run(maxQueue, ops).published == []
  {
    if ops != [] {
      NoRoomPublishesNothing(maxQueue, ops[..|ops| - 1]);
      EveryRunKeepsInv(maxQueue, ops[..|ops| - 1]);
    }
  }

  // A consumer that was removed while it waited, since the number `at`.
  ghost predicate RemovedWaiter<T>(g: Group<T>, i: nat, at: nat) {
    && i < |g.subs| && at <= g.signals
    && g.subs[i].stop && !g.subs[i].buffers.Busy() && g.subs[i].waitsAt == at
    && (g.subs[i].returned ==> g.signals > at)
  }

  lemma {:induction false} RemovedWaiterStays<T>(g: Group<T>, op: Op<T>, i: nat, at: nat)
    requires Inv(g) && RemovedWaiter(g, i, at)
    ensures RemovedWaiter(Step(g, op), i, at) && Step(g, op).signals >= g.signals
  {
    assert SubInv(g.subs[i], g.maxQueue, g.published, g.signals);
  }

  // Removal does not signal.  A consumer removed while it waits can return at a later moment exactly when
  // the condition has been signalled since: by an event sent to the others, or the end of a batch.
  lemma {:induction false} RemovedWaiterReturnsIff<T>(maxQueue: int, ops: seq<Op<T>>, more: seq<Op<T>>, i: nat)
    requires i < |Run(maxQueue, ops).subs| && Run(maxQueue, ops).subs[i].stop
    requires Run(maxQueue, ops).subs[i].waitsAt == Run(maxQueue, ops).signals && !Run(maxQueue, ops).subs[i].returned
    ensures i < |Run(maxQueue, ops + more).subs|
    ensures Step(Run(maxQueue, ops + more), Settle(i)).subs[i].returned
      <==> Run(maxQueue, ops + more).signals > Run(maxQueue, ops).signals
  {
    EveryRunKeepsInv(maxQueue, ops);
    assert SubInv(Run(maxQueue, ops).subs[i], maxQueue, Run(maxQueue, ops).published, Run(maxQueue, ops).signals);
    RemovedWaiterLater(maxQueue, ops, more, i, Run(maxQueue, ops).signals);
  }

  lemma {:induction false} RemovedWaiterLater<T>(maxQueue: int, ops: seq<Op<T>>, more: seq<Op<T>>, i: nat, at: nat)
    requires RemovedWaiter(Run(maxQueue, ops), i, at)
    ensures RemovedWaiter(Run(maxQueue, ops + more), i, at)
  {
    if more == [] {
      assert ops + more == ops;
    } else {
      var init := more[..|more| - 1];
      RemovedWaiterLater(maxQueue, ops, init, i, at);
      EveryRunKeepsInv(maxQueue, ops + init);
      RemovedWaiterStays(Run(maxQueue, ops + init), more[|more| - 1], i, at);
      assert (ops + more)[..|ops + more| - 1] == ops + init;
    }
  }

  // So a consumer that idles when it is removed lingers: nothing wakes it until the next event.
  lemma {:induction false} RemovedConsumerLingers<T>(maxQueue: int)
    ensures var g := Run<T>(maxQueue, [Add, Settle(0), Del(0)]);
      |g.subs| == 1 && g.subs[0].stop && Step(g, Settle(0)) == g && !g.subs[0].returned
  {
    var a, b, c: Op<T> := Add, Settle(0), Del(0);
    assert [a, b, c][..2] == [a, b] && [a, b][..1] == [a] && [a][..0] == [];
    assert Run(maxQueue, [a]).subs == [Sub(Buffers([], [], []), false, false, 0, -1, -1)];
  }
}

module EventBus {
  import opened Basics
  import opened EventSpec

  // A consumer's two buffers: `queue` collects what publishers append, `pending` is the batch Listen is
  // working through.  Both are backing arrays with lengths, as Go slices are.
  class Consumer<T(0)> {
    var queue: array<T>
    var queueLen: nat
    var pending: array<T>
    var pendingLen: nat
    var next: nat  // the next event of the batch to handle
    var stop: bool
    ghost var handled: seq<T>
    ghost var repr: set<object>

    ghost predicate Valid()
      reads this, repr
    {
      && this in repr && queue in repr && pending in repr
      && queue != pending
      && queueLen <= queue.Length && next <= pendingLen <= pending.Length
    }

    ghost function View(): Buffers<T>
      requires Valid()
      reads this, repr
    {
      Buffers(queue[..queueLen], pending[next..pendingLen], handled)
    }

    constructor ()
      ensures Valid() && fresh(repr)
      ensures View() == Buffers([], [], []) && !stop
    {
      queue, pending := new T[64], new T[128];
      queueLen, pendingLen, next, stop, handled := 0, 0, 0, false, [];
      new;
      repr := {this, queue, pending};
    }

    // append(queue, ev): in place while there is capacity, else into a larger copy.
    method Append(ev: T)
      requires Valid()
      modifies this`queue, this`queueLen, this`repr, queue
      ensures Valid() && fresh(repr - old(repr))
      ensures View() == Gained(old(View()), ev)
    {
      if queueLen == queue.Length {
        var bigger := new T[2 * queue.Length + 1];
        forall i | 0 <= i < queueLen {
          bigger[i] := queue[i];
        }
        queue := bigger;
        repr := repr + {bigger};
        assert queue[..queueLen] == old(queue[..queueLen]);
      }
      queue[queueLen] := ev;
      queueLen := queueLen + 1;
      assert queue[..queueLen - 1] == old(queue[..queueLen]);
    }

    // Listen's critical section: takes the queue as the next batch and reuses the finished batch's
    // array for the queue.
    method Swap()
      requires Valid() && View().inProcess == [] && View().queued != []
      modifies this`queue, this`queueLen, this`pending, this`pendingLen, this`next
      ensures Valid() && repr == old(repr)
      ensures queue == old(pending) && pending == old(queue)
      ensures View() == Swapped(old(View()))
    {
      queue, pending := pending, queue;
      queueLen, pendingLen, next := 0, queueLen, 0;
    }

    // The handler runs on the next event of the batch, outside the lock.
    method HandleNext() returns (ev: T)
      requires Valid() && View().inProcess != []
      modifies this`next, this`handled
      ensures Valid() && repr == old(repr)
      ensures ev == old(View()).inProcess[0]
      ensures View() == HandledNext(old(View()))
    {
      ev := pending[next];
      next := next + 1;
      handled := handled + [ev];
    }
  }

  class Group<T(0)> {
    var subs: seq<Consumer<T>>
    const maxQueue: int
    var maxLen: int
    var signals: nat  // how often the condition has been signalled
    ghost var repr: set<object>  // the state of every subscribed consumer

    constructor (maxQueue: int)
      ensures this.maxQueue == maxQueue && subs == [] && repr == {} && signals == 0 && Valid()
    {
      this.maxQueue, subs, maxLen, signals, repr := maxQueue, [], 0, 0, {};
    }

    // No consumer appears twice, and no two share any part of their state.
    ghost predicate Valid()
      reads this`subs, this`repr, repr
    {
      && this !in repr
      && (forall i :: 0 <= i < |subs| ==> subs[i] in repr && subs[i].repr <= repr && subs[i].Valid())
      && (forall i, j :: 0 <= i < j < |subs| ==> subs[i].repr !! subs[j].repr)
    }

    ghost function Views(): (r: seq<Buffers<T>>)
      requires Valid()
      reads this`subs, this`repr, repr
      ensures |r| == |subs| && forall i :: 0 <= i < |subs| ==> r[i] == subs[i].View()
    {
      var cs, r := subs, repr;
      seq(|cs|, i requires 0 <= i < |cs| && cs[i] in r && cs[i].repr <= r && cs[i].Valid() reads r => cs[i].View())
    }

    method LongestQueue() returns (longest: nat)
      requires Valid()
      ensures forall i :: 0 <= i < |subs| ==> |Views()[i].queued| <= longest
      ensures longest == 0 || exists i :: 0 <= i < |subs| && |Views()[i].queued| == longest
    {
      longest := 0;
      for k := 0 to |subs|
        invariant forall i :: 0 <= i < k ==> |Views()[i].queued| <= longest
        invariant longest == 0 || exists i :: 0 <= i < k && |Views()[i].queued| == longest
      {
        assert Views()[k] == subs[k].View();
        if subs[k].queueLen > longest {
          longest := subs[k].queueLen;
        }
      }
    }

    method AppendTo(k: nat, ev: T)
      requires Valid() && k < |subs|
      modifies this`repr, subs[k].repr
      ensures Valid() && fresh(repr - old(repr))
      ensures Views()[k] == Gained(old(Views())[k], ev)
      ensures forall i :: 0 <= i < |subs| && i != k ==> Views()[i] == old(Views())[i]
    {
      subs[k].Append(ev);
      repr := repr + subs[k].repr;
    }

    method SendAll(ev: T) returns (newMax: nat)
      requires Valid()
      modifies this`repr, repr
      ensures Valid() && fresh(repr - old(repr))
      ensures forall i :: 0 <= i < |subs| ==> Views()[i] == Gained(old(Views())[i], ev)
      ensures forall i :: 0 <= i < |subs| ==> |Views()[i].queued| <= newMax
    {
      ghost var was := Views();
      newMax := 0;
      for k := 0 to |subs|
        invariant Valid() && fresh(repr - old(repr))
        invariant forall i :: 0 <= i < k ==> Views()[i] == Gained(was[i], ev) && |Views()[i].queued| <= newMax
        invariant forall i :: k <= i < |subs| ==> Views()[i] == was[i]
      {
        AppendTo(k, ev);
        if subs[k].queueLen > newMax {
          newMax := subs[k].queueLen;
        }
      }
    }

    // The part of Broadcast that moves events: no queue changes while one is at the limit, otherwise
    // every subscribed queue gains the event.
    method TrySend(ev: T) returns (sent: bool)
      requires Valid()
      modifies this`maxLen, this`repr, repr
      ensures Valid() && fresh(repr - old(repr))
      ensures sent <==> 0 < maxQueue && forall i :: 0 <= i < |subs| ==> |old(Views())[i].queued| < maxQueue
      ensures forall i :: 0 <= i < |subs| ==>
                Views()[i] == if sent then Gained(old(Views())[i], ev) else old(Views())[i]
    {
      ghost var was := Views();
      maxLen := LongestQueue();
      assert Views() == was;
      if maxLen >= maxQueue {
        return false;
      }
      var newMax := SendAll(ev);
      maxLen := newMax;
      sent := true;
    }

    // One attempt of Broadcast under the lock.  When it does not send, the publisher goes back to waiting;
    // when it sends, everyone who waits is woken.
    method Broadcast(ev: T) returns (sent: bool)
      requires Valid()
      modifies this`maxLen, this`signals, this`repr, repr
      ensures Valid() && fresh(repr - old(repr))
      ensures signals == old(signals) + if sent then 1 else 0
      ensures sent <==> 0 < maxQueue && forall i :: 0 <= i < |subs| ==> |old(Views())[i].queued| < maxQueue
      ensures forall i :: 0 <= i < |subs| ==>
                Views()[i] == if sent then Gained(old(Views())[i], ev) else old(Views())[i]
    {
      sent := TrySend(ev);
      if sent {
        signals := signals + 1;
      }
    }

    // Adds a consumer with empty buffers behind the others.
    method Add() returns (sub: Consumer<T>)
      requires Valid()
      modifies this`subs, this`repr
      ensures Valid() && fresh(sub) && fresh(repr - old(repr)) && subs == old(subs) + [sub]
      ensures Views() == old(Views()) + [Buffers([], [], [])]
    {
      sub := new Consumer();
      subs, repr := subs + [sub], repr + sub.repr;
    }

    // Stops a consumer and takes it off the list, if it still is on it.  Its buffers and everyone else's
    // stay as they are, so it still drains what it was sent.
    method Del(sub: Consumer<T>)
      requires Valid() && sub.Valid()
      requires sub !in subs ==> forall i :: 0 <= i < |subs| ==> sub !in subs[i].repr
      modifies this`subs, sub`stop
      ensures Valid() && sub.stop && sub !in subs && sub.Valid() && sub.View() == old(sub.View())
      ensures sub in old(subs) ==>
                exists i :: 0 <= i < |old(subs)| && old(subs)[i] == sub
                            && subs == old(subs)[..i] + old(subs)[i + 1..]
                            && Views() == old(Views())[..i] + old(Views())[i + 1..]
      ensures sub !in old(subs) ==> subs == old(subs) && Views() == old(Views())
    {
      sub.stop := true;
      var i := 0;
      while i < |subs| && subs[i] != sub
        invariant i <= |subs| && sub !in subs[..i]
      {
        i := i + 1;
      }
      if i < |subs| {
        subs := subs[..i] + subs[i + 1..];
        assert old(subs)[i] == sub;
      }
    }

    // Listen's two atomic parts, run by consumer k among its peers: no other consumer's buffers move.

    method SwapOf(k: nat)
      requires Valid() && k < |subs| && Views()[k].inProcess == [] && Views()[k].queued != []
      modifies subs[k]
      ensures Valid()
      ensures Views() == old(Views())[k := Swapped(old(Views())[k])]
    {
      subs[k].Swap();
    }

    method HandNextOf(k: nat) returns (ev: T)
      requires Valid() && k < |subs| && Views()[k].inProcess != []
      modifies subs[k]
      ensures Valid() && ev == old(Views())[k].inProcess[0]
      ensures Views() == old(Views())[k := HandledNext(old(Views())[k])]
    {
      ev := subs[k].HandleNext();
    }

    // The end of a batch signals the condition.
    method HandleOf(k: nat) returns (ev: T)
      requires Valid() && k < |subs| && Views()[k].inProcess != []
      modifies subs[k], this`signals
      ensures Valid() && ev == old(Views())[k].inProcess[0]
      ensures Views() == old(Views())[k := HandledNext(old(Views())[k])]
      ensures signals == old(signals) + if EndsBatch(old(Views())[k]) then 1 else 0
    {
      ghost var was := Views()[k];
      var last := subs[k].next + 1 == subs[k].pendingLen;
      assert last <==> EndsBatch(was);
      ev := HandNextOf(k);
      if last {
        signals := signals + 1;
      }
    }
  }

  // ---- the registry ----

  ghost predicate StrictlySorted(keys: seq<nat>) {
    forall i, j :: 0 <= i < j < |keys| ==> keys[i] < keys[j]
  }

  // The immutable table a dispatcher publishes: event types and their groups, side by side.
  datatype Registry<G> = Registry(keys: seq<nat>, grps: seq<G>) {
    ghost predicate Valid() {
      |keys| == |grps| && StrictlySorted(keys)
    }

    ghost function Lookup(eventType: nat): Option<G>
      requires Valid()
    {
      if i :| 0 <= i < |keys| && keys[i] == eventType then Some(grps[i]) else None
    }
  }

  // Why a subscription panics.
  datatype Refusal = DispatcherClosed | TypeConflict

  class Dispatcher<G> {
    var registry: Registry<G>
    var closed: bool

    constructor ()
      ensures registry == Registry([], []) && !closed
    {
      registry, closed := Registry([], []), false;
    }

    method Close()
      modifies this`closed
      ensures closed
    {
      closed := true;
    }

    // The first position whose key is not below `eventType`.
    method LowerBound(eventType: nat) returns (left: nat)
      requires registry.Valid()
      ensures left <= |registry.keys|
      ensures forall i :: 0 <= i < left ==> registry.keys[i] < eventType
      ensures forall i :: left <= i < |registry.keys| ==> registry.keys[i] >= eventType
    {
      var keys := registry.keys;
      left := 0;
      var right := |keys|;
      while left < right
        invariant left <= right <= |keys|
        invariant forall i :: 0 <= i < left ==> keys[i] < eventType
        invariant forall i :: right <= i < |keys| ==> keys[i] >= eventType
      {
        var mid := left + (right - left) / 2;
        if keys[mid] < eventType {
          left := mid + 1;
        } else {
          right := mid;
        }
      }
    }

    // Publish reaches the group registered for its type, and no other.
    method FindGroup(eventType: nat) returns (g: Option<G>)
      requires registry.Valid()
      ensures g == registry.Lookup(eventType)
    {
      var left := LowerBound(eventType);
      if left < |registry.keys| && registry.keys[left] == eventType {
        return Some(registry.grps[left]);
      }
      return None;
    }

    // Registers `grp` for a type that has no group; a type that has one keeps it, if it `fits` the
    // subscriber's events.  Publishers holding the old table are unaffected: the new one replaces it whole.
    method SubscribeTo(eventType: nat, grp: G, fits: G -> bool) returns (used: Result<G, Refusal>)
      requires registry.Valid()
      modifies this`registry
      ensures registry.Valid()
      ensures used == if closed then Err(DispatcherClosed)
                      else if old(registry).Lookup(eventType).None? then Ok(grp)
                      else if fits(old(registry).Lookup(eventType).value) then Ok(old(registry).Lookup(eventType).value)
                      else Err(TypeConflict)
      ensures used.Ok? ==> registry.Lookup(eventType) == Some(used.value)
      ensures used.Ok? ==> forall other :: other != eventType ==> registry.Lookup(other) == old(registry).Lookup(other)
      ensures used.Err? || old(registry).Lookup(eventType).Some? ==> registry == old(registry)
    {
      if closed {
        return Err(DispatcherClosed);
      }
      var existing := FindGroup(eventType);
      if existing.Some? {
        return if fits(existing.value) then Ok(existing.value) else Err(TypeConflict);
      }
      Register(eventType, grp);
      used := Ok(grp);
    }

    method Register(eventType: nat, grp: G)
      requires registry.Valid() && registry.Lookup(eventType).None?
      modifies this`registry
      ensures registry.Valid()
      ensures forall other ::
                registry.Lookup(other) == if other == eventType then Some(grp) else old(registry).Lookup(other)
    {
      var was := registry;
      var idx := LowerBound(eventType);
      if idx < |was.keys| {
        LookupIs(was, idx);
      }
      assert InsertionPoint(was.keys, idx, eventType);
      registry := Inserted(was, idx, eventType, grp);
      InsertedIsValid(was, idx, eventType, grp);
      forall other
        ensures registry.Lookup(other) == if other == eventType then Some(grp) else was.Lookup(other)
      {
        InsertedLookup(was, idx, eventType, grp, other);
      }
    }
  }

  // Subscribing a handler: the type's group, existing or new, gets one more consumer behind its others.
  method Subscribe<T(0)>(d: Dispatcher<Group<T>>, eventType: nat, maxQueue: int, fits: Group<T> -> bool)
    returns (r: Result<Consumer<T>, Refusal>, ghost g: Group<T>)
    requires d.registry.Valid()
    requires forall i :: 0 <= i < |d.registry.grps| ==> d.registry.grps[i].Valid()
    modifies d, d.registry.grps
    ensures d.registry.Valid() && d.closed == old(d.closed)
    ensures r == Err(DispatcherClosed) <==> d.closed
    ensures r.Err? ==> d.registry == old(d.registry)
    ensures r.Ok? ==>
              && d.registry.Lookup(eventType) == Some(g) && g.Valid() && fresh(r.value)
              && (old(d.registry).Lookup(eventType) == Some(g) ==>
                    g.subs == old(g.subs) + [r.value] && g.Views() == old(g.Views()) + [Buffers([], [], [])])
              && (old(d.registry).Lookup(eventType).None? ==>
                    fresh(g) && g.maxQueue == maxQueue && g.subs == [r.value] && g.Views() == [Buffers([], [], [])])
  {
    var created := new Group<T>(maxQueue);
    g := created;
    var used := d.SubscribeTo(eventType, created, fits);
    if used.Err? {
      return Err(used.error), g;
    }
    g := used.value;
    var sub := used.value.Add();
    r := Ok(sub);
  }

  function Inserted<G>(was: Registry<G>, idx: nat, eventType: nat, grp: G): Registry<G>
    requires idx <= |was.keys| == |was.grps|
  {
    Registry(was.keys[..idx] + [eventType] + was.keys[idx..], was.grps[..idx] + [grp] + was.grps[idx..])
  }

  ghost predicate InsertionPoint(keys: seq<nat>, idx: nat, eventType: nat) {
    && idx <= |keys|
    && (forall i :: 0 <= i < idx ==> keys[i] < eventType)
    && (forall i :: idx <= i < |keys| ==> keys[i] > eventType)
  }

  lemma {:induction false} InsertedIsValid<G>(was: Registry<G>, idx: nat, eventType: nat, grp: G)
    requires was.Valid() && InsertionPoint(was.keys, idx, eventType)
    ensures Inserted(was, idx, eventType, grp).Valid()
  {
  }

  lemma {:induction false} LookupIs<G>(r: Registry<G>, i: nat)
    requires r.Valid() && i < |r.keys|
    ensures r.Lookup(r.keys[i]) == Some(r.grps[i])
  {
  }

  lemma {:induction false} LookupNone<G>(r: Registry<G>, key: nat)
    requires r.Valid() && key !in r.keys
    ensures r.Lookup(key) == None
  {
  }

  // Where an entry is after the insertion.
  lemma {:induction false} InsertedAt<G>(was: Registry<G>, idx: nat, eventType: nat, grp: G, i: nat)
    requires idx <= |was.keys| == |was.grps| && i < |was.keys|
    ensures var now, j := Inserted(was, idx, eventType, grp), if i < idx then i else i + 1;
      now.keys[j] == was.keys[i] && now.grps[j] == was.grps[i]
  {
  }

  // Inserting a new key in place finds it afterwards and leaves every other lookup as it was.
  lemma {:induction false} InsertedLookup<G>(was: Registry<G>, idx: nat, eventType: nat, grp: G, other: nat)
    requires was.Valid() && InsertionPoint(was.keys, idx, eventType) && Inserted(was, idx, eventType, grp).Valid()
    ensures Inserted(was, idx, eventType, grp).Lookup(other)
            == if other == eventType then Some(grp) else was.Lookup(other)
  {
    var now := Inserted(was, idx, eventType, grp);
    if other == eventType {
      LookupIs(now, idx);
    } else if other in was.keys {
      var i :| 0 <= i < |was.keys| && was.keys[i] == other;
      InsertedAt(was, idx, eventType, grp, i);
      LookupIs(was, i);
      LookupIs(now, if i < idx then i else i + 1);
    } else {
      LookupNone(was, other);
      LookupNone(now, other);
    }
  }
}
