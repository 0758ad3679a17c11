/** The per-client fixed-window limiter (proxy/rate_limiter.go), bounded over whole runs. */
module RateSpec {
  import opened Basics

  datatype Client = Client(name: string)

  // A window opened at `start` that has admitted `count` requests.
  datatype Window = Window(start: int, count: int)

  const MINUTE := 60_000_000_000  // nanoseconds

  datatype Limits = Limits(perMin: int, overrides: map<Client, int>) {
    function For(c: Client): int {
      if c in overrides then overrides[c] else perMin
    }
  }

  function Admits(lim: int, w: Option<Window>, now: int): bool {
    lim <= 0 || w.None? || now - w.value.start >= MINUTE || w.value.count < lim
  }

  function Next(lim: int, w: Option<Window>, now: int): Option<Window> {
    if lim <= 0 then w
    else if w.None? || now - w.value.start >= MINUTE then Some(Window(now, 1))
    else if w.value.count >= lim then w
    else Some(Window(w.value.start, w.value.count + 1))
  }

  // ---- runs ----

  datatype Request = Request(client: Client, at: int)

  // The clock never runs back.
  ghost predicate Ordered(run: seq<Request>) {
    forall i, j :: 0 <= i <= j < |run| ==> run[i].at <= run[j].at
  }

  function WindowAfter(limits: Limits, run: seq<Request>, c: Client): Option<Window> {
    if run == [] then None
    else
      var w := WindowAfter(limits, run[..|run| - 1], c);
      var last := run[|run| - 1];
      if last.client == c then Next(limits.For(c), w, last.at) else w
  }

  // Whether the i-th request is admitted.
  ghost predicate Admitted(limits: Limits, run: seq<Request>, i: nat)
    requires i < |run|
  {
    Admits(limits.For(run[i].client), WindowAfter(limits, run[..i], run[i].client), run[i].at)
  }

  // How many of the client's requests at lo <= t < hi are admitted.
  ghost function Count(limits: Limits, run: seq<Request>, c: Client, lo: int, hi: int): nat {
    if run == [] then 0
    else
      var n := |run| - 1;
      Count(limits, run[..n], c, lo, hi)
      + if run[n].client == c && lo <= run[n].at < hi && Admitted(limits, run, n) then 1 else 0
  }

  // ---- at most twice the limit, less one ----

  // Where the count for one minute from t stands, against the client's current window.
  ghost predicate Bounded(w: Option<Window>, lim: int, t: int, n: int) {
    match w
    case None => n == 0
    case Some(Window(s, c)) =>
      && 1 <= c <= lim
      && n <= (if s < t then c - 1 else if s < t + MINUTE then lim - 1 + c else 2 * lim - 1)
  }

  lemma {:induction false} NextKeepsBound(w: Option<Window>, lim: int, t: int, n: nat, now: int)
    requires lim >= 1 && Bounded(w, lim, t, n) && (w.Some? ==> w.value.start <= now) && (now < t ==> n == 0)
    ensures Bounded(Next(lim, w, now), lim, t, n + if t <= now < t + MINUTE && Admits(lim, w, now) then 1 else 0)
  {
  }

  lemma {:induction false} NothingYet(limits: Limits, run: seq<Request>, c: Client, lo: int, hi: int)
    requires forall i :: 0 <= i < |run| ==> run[i].at < lo
    ensures Count(limits, run, c, lo, hi) == 0
  {
    if run != [] {
      NothingYet(limits, run[..|run| - 1], c, lo, hi);
    }
  }

  lemma {:induction false} WindowIsPast(limits: Limits, run: seq<Request>, c: Client, now: int)
    requires forall i :: 0 <= i < |run| ==> run[i].at <= now
    ensures var w := WindowAfter(limits, run, c); w.Some? ==> w.value.start <= now
  {
    if run != [] {
      WindowIsPast(limits, run[..|run| - 1], c, now);
    }
  }

  lemma {:induction false} EveryRunIsBounded(limits: Limits, run: seq<Request>, c: Client, t: int)
    requires limits.For(c) >= 1 && Ordered(run)
    ensures Bounded(WindowAfter(limits, run, c), limits.For(c), t, Count(limits, run, c, t, t + MINUTE))
  {
    if run != [] {
      var n := |run| - 1;
      var init, last := run[..n], run[n];
      EveryRunIsBounded(limits, init, c, t);
      if last.client == c {
        assert forall i :: 0 <= i < n ==> init[i].at <= last.at;
        WindowIsPast(limits, init, c, last.at);
        if last.at < t {
          NothingYet(limits, init, c, t, t + MINUTE);
        }
        NextKeepsBound(WindowAfter(limits, init, c), limits.For(c), t, Count(limits, init, c, t, t + MINUTE), last.at);
      }
    }
  }

  // Any half-open minute holds fewer than twice the limit of a client's admitted requests.
  lemma {:induction false} AdmittedPerMinute(limits: Limits, run: seq<Request>, c: Client, t: int)
    requires limits.For(c) >= 1 && Ordered(run)
    ensures Count(limits, run, c, t, t + MINUTE) <= 2 * limits.For(c) - 1
  {
    EveryRunIsBounded(limits, run, c, t);
  }

  // ---- refused only on a full minute ----

  // A client's current window has counted what it admitted since it opened.
  lemma {:induction false} WindowCounts(limits: Limits, run: seq<Request>, c: Client, hi: int)
    requires limits.For(c) >= 1 && Ordered(run) && forall i :: 0 <= i < |run| ==> run[i].at < hi
    ensures var w := WindowAfter(limits, run, c);
      w.Some? ==> Count(limits, run, c, w.value.start, hi) >= w.value.count
  {
    if run != [] {
      var n := |run| - 1;
      var init, last := run[..n], run[n];
      WindowCounts(limits, init, c, hi);
      if last.client == c {
        assert forall i :: 0 <= i < n ==> init[i].at <= last.at;
        WindowIsPast(limits, init, c, last.at);
      }
    }
  }

  lemma {:induction false} CountWidens(limits: Limits, run: seq<Request>, c: Client, lo: int, lo': int, hi: int)
    requires lo' <= lo
    ensures Count(limits, run, c, lo, hi) <= Count(limits, run, c, lo', hi)
  {
    if run != [] {
      CountWidens(limits, run[..|run| - 1], c, lo, lo', hi);
    }
  }

  // A request is refused only when the minute up to it has already admitted the client's limit.
  lemma {:induction false} RefusedOnlyWhenFull(limits: Limits, run: seq<Request>, i: nat)
    requires Ordered(run) && i < |run| && !Admitted(limits, run, i)
    ensures var c, now := run[i].client, run[i].at;
      limits.For(c) >= 1 && Count(limits, run[..i], c, now - MINUTE + 1, now + 1) >= limits.For(c)
  {
    var c, now, before := run[i].client, run[i].at, run[..i];
    assert forall k :: 0 <= k < i ==> before[k].at <= now;
    WindowCounts(limits, before, c, now + 1);
    var w := WindowAfter(limits, before, c).value;
    CountWidens(limits, before, c, w.start, now - MINUTE + 1, now + 1);
  }

  // No client is held back by another: what a client is granted depends on its own requests alone.
  lemma {:induction false} ClientsAreIndependent(limits: Limits, run: seq<Request>, c: Client)
    ensures WindowAfter(limits, run, c) == WindowAfter(limits, Own(run, c), c)
  {
    if run != [] {
      var n := |run| - 1;
      ClientsAreIndependent(limits, run[..n], c);
      if run[n].client == c {
        var own := Own(run[..n], c);
        assert (own + [run[n]])[..|own|] == own;
      }
    }
  }

  function Own(run: seq<Request>, c: Client): seq<Request> {
    if run == [] then []
    else
      var own := Own(run[..|run| - 1], c);
      if run[|run| - 1].client == c then own + [run[|run| - 1]] else own
  }

  function Repeat(r: Request, k: nat): (rs: seq<Request>)
    ensures |rs| == k && forall i :: 0 <= i < k ==> rs[i] == r
  {
    if k == 0 then [] else Repeat(r, k - 1) + [r]
  }

  // Where a run stands for one client: its window, and how many were admitted from lo before hi.
  ghost predicate Stands(limits: Limits, run: seq<Request>, c: Client, lo: int, hi: int,
      start: int, count: int, n: int) {
    WindowAfter(limits, run, c) == Some(Window(start, count)) && Count(limits, run, c, lo, hi) == n
  }

  lemma {:induction false} OneMore(limits: Limits, run: seq<Request>, r: Request, lo: int, hi: int)
    ensures WindowAfter(limits, run + [r], r.client)
            == Next(limits.For(r.client), WindowAfter(limits, run, r.client), r.at)
    ensures Count(limits, run + [r], r.client, lo, hi) == Count(limits, run, r.client, lo, hi)
      + if lo <= r.at < hi && Admits(limits.For(r.client), WindowAfter(limits, run, r.client), r.at) then 1 else 0
  {
    assert (run + [r])[..|run|] == run;
  }

  lemma {:induction false} RoomForOne(limits: Limits, run: seq<Request>, r: Request, lo: int, hi: int,
      start: int, count: int, n: int)
    requires Stands(limits, run, r.client, lo, hi, start, count, n) && lo <= r.at < hi
    requires 1 <= count < limits.For(r.client) && r.at - start < MINUTE
    ensures Stands(limits, run + [r], r.client, lo, hi, start, count + 1, n + 1)
  {
    OneMore(limits, run, r, lo, hi);
  }

  lemma {:induction false} RepeatSplits(run: seq<Request>, r: Request, k: nat)
    requires k > 0
    ensures run + Repeat(r, k) == run + Repeat(r, k - 1) + [r]
  {
  }

  // Requests a window has room for are all admitted.
  lemma {:induction false} Burst(limits: Limits, run: seq<Request>, r: Request, k: nat, lo: int, hi: int,
      start: int, count: int, n: int)
    requires Stands(limits, run, r.client, lo, hi, start, count, n) && lo <= r.at < hi
    requires 1 <= count && count + k <= limits.For(r.client) && r.at - start < MINUTE
    ensures Stands(limits, run + Repeat(r, k), r.client, lo, hi, start, count + k, n + k)
  {
    if k == 0 {
      assert run + [] == run;
    } else {
      Burst(limits, run, r, k - 1, lo, hi, start, count, n);
      RoomForOne(limits, run + Repeat(r, k - 1), r, lo, hi, start, count + k - 1, n + k - 1);
      RepeatSplits(run, r, k);
    }
  }

  // A request at 0, the rest of the limit late in its window, and the limit again as the next opens.
  function DoubleBurst(c: Client, lim: nat): seq<Request>
    requires lim >= 1
  {
    [Request(c, 0)] + Repeat(Request(c, MINUTE - 1), lim - 1)
    + [Request(c, MINUTE)] + Repeat(Request(c, MINUTE), lim - 1)
  }

  lemma {:induction false} DoubleBurstIsOrdered(c: Client, lim: nat)
    requires lim >= 1
    ensures Ordered(DoubleBurst(c, lim))
  {
  }

  // The bound is reached for every limit: within the minute from that late moment all but the first of
  // those requests are admitted.
  lemma {:induction false} BoundIsReached(limits: Limits, c: Client)
    requires limits.For(c) >= 1
    ensures Ordered(DoubleBurst(c, limits.For(c)))
    ensures Count(limits, DoubleBurst(c, limits.For(c)), c, MINUTE - 1, 2 * MINUTE - 1) == 2 * limits.For(c) - 1
  {
    var lim, lo, hi := limits.For(c), MINUTE - 1, 2 * MINUTE - 1;
    var first, late, next := Request(c, 0), Request(c, MINUTE - 1), Request(c, MINUTE);
    OneMore(limits, [], first, lo, hi);
    assert [] + [first] == [first];
    Burst(limits, [first], late, lim - 1, lo, hi, 0, 1, 0);
    var run := [first] + Repeat(late, lim - 1);
    OneMore(limits, run, next, lo, hi);
    Burst(limits, run + [next], next, lim - 1, lo, hi, MINUTE, 1, lim);
    DoubleBurstIsOrdered(c, lim);
  }

  // The limit is the client's own where it has one, and the default otherwise: no run of its requests passes
  // twice that less one in a minute, some run reaches it, and a limit that is not positive refuses nothing.
  lemma {:induction false} OwnLimitGoverns(limits: Limits, run: seq<Request>, c: Client, t: int, lim: int)
    requires lim == (if c in limits.overrides then limits.overrides[c] else limits.perMin) && Ordered(run)
    ensures lim >= 1 ==> Count(limits, run, c, t, t + MINUTE) <= 2 * lim - 1
    ensures lim >= 1 ==> Count(limits, DoubleBurst(c, lim), c, MINUTE - 1, 2 * MINUTE - 1) == 2 * lim - 1
    ensures lim <= 0 ==> forall i :: 0 <= i < |run| && run[i].client == c ==> Admitted(limits, run, i)
  {
    assert lim == limits.For(c);
    if lim >= 1 {
      AdmittedPerMinute(limits, run, c, t);
      BoundIsReached(limits, c);
    }
  }
}

module RateLimiting {
  import opened Basics
  import opened RateSpec

  class RateLimiter {
    const limits: Limits
    var windows: map<Client, Window>

    constructor (limits: Limits)
      ensures this.limits == limits && windows == map[]
    {
      this.limits, windows := limits, map[];
    }

    function At(c: Client): Option<Window>
      reads this
    {
      if c in windows then Some(windows[c]) else None
    }

    method Allow(c: Client, now: int) returns (ok: bool)
      modifies this
      ensures var lim := if c in limits.overrides then limits.overrides[c] else limits.perMin;
        && (lim <= 0 ==> ok && windows == old(windows))
        && (!ok ==> lim > 0 && old(At(c)).Some? && old(At(c)).value.count >= lim)
      ensures ok == Admits(limits.For(c), old(At(c)), now)
      ensures At(c) == Next(limits.For(c), old(At(c)), now)
      ensures forall other :: other != c ==> At(other) == old(At(other))
    {
      var lim := limits.For(c);
      if lim <= 0 {
        return true;
      }
      if c !in windows || now - windows[c].start >= MINUTE {
        windows := windows[c := Window(now, 1)];
        return true;
      }
      var w := windows[c];
      if w.count >= lim {
        return false;
      }
      windows := windows[c := Window(w.start, w.count + 1)];
      return true;
    }
  }
}
