/** Bounded histories that keep the newest entries: the circular log buffer (proxy/logMonitor.go) and the
    metrics list (proxy/metrics_monitor.go). */
module Recent {
  // The last n elements of s, or all of them.
  function LastN<T>(s: seq<T>, n: nat): (r: seq<T>)
    ensures |r| == if |s| <= n then |s| else n
  {
    if |s| <= n then s else s[|s| - n..]
  }

  // They are the newest, not the oldest.
  lemma {:induction false} LastNIsNewest<T>(s: seq<T>, n: nat, i: nat)
    requires i < |LastN(s, n)|
    ensures LastN(s, n)[|LastN(s, n)| - 1 - i] == s[|s| - 1 - i]
  {
  }

  // Forgetting early loses nothing that is still wanted later.
  lemma {:induction false} LastNAppend<T>(s: seq<T>, more: seq<T>, n: nat)
    ensures LastN(LastN(s, n) + more, n) == LastN(s + more, n)
  {
  }

  function Concat<T>(writes: seq<seq<T>>): seq<T> {
    if writes == [] then [] else Concat(writes[..|writes| - 1]) + writes[|writes| - 1]
  }

  // What is left when every write in turn is followed by forgetting.
  function Kept<T>(writes: seq<seq<T>>, n: nat): seq<T> {
    if writes == [] then [] else LastN(Kept(writes[..|writes| - 1], n) + writes[|writes| - 1], n)
  }

  // Any run of writes, of any lengths, keeps the newest n of everything written.
  lemma {:induction false} KeptIsLastOfAll<T>(writes: seq<seq<T>>, n: nat)
    ensures Kept(writes, n) == LastN(Concat(writes), n)
  {
    if writes != [] {
      KeptIsLastOfAll(writes[..|writes| - 1], n);
      LastNAppend(Concat(writes[..|writes| - 1]), writes[|writes| - 1], n);
    }
  }
}

module LogBuffer {
  import opened Basics
  import opened Recent

  lemma {:induction false} Parts(a: seq<byte>, b: seq<byte>, c: seq<byte>)
    ensures (a + b + c)[..|a|] == a && (a + b + c)[|a|..] == b + c
    ensures (a + b + c)[..|a + b|] == a + b && (a + b + c)[|a + b|..] == c
  {
  }

  lemma {:induction false} Regroup(a: seq<byte>, b: seq<byte>, c: seq<byte>)
    ensures a + b + c == a + (b + c)
  {
  }

  // Writing into a full buffer pushes out the oldest bytes: without and with wrapping.

  lemma {:induction false} FullWithoutWrap(d: seq<byte>, h: nat, p: seq<byte>, d': seq<byte>)
    requires h < |d| && h + |p| <= |d| && |p| < |d| && d' == d[..h] + p + d[h + |p|..]
    ensures LastN(d[h..] + d[..h] + p, |d|) == d'[h + |p|..] + d'[..h + |p|]
  {
    var k := |p|;
    Parts(d[..h], p, d[h + k..]);
    assert (d[h..] + d[..h] + p)[k..] == d[h + k..] + (d[..h] + p);
  }

  lemma {:induction false} FullWithWrap(d: seq<byte>, h: nat, p: seq<byte>, first: seq<byte>, second: seq<byte>)
    requires h + |first| == |d| && p == first + second && second != [] && |p| < |d|
    ensures var k, d' := |second|, second + d[|second|..h] + first;
      LastN(d[h..] + d[..h] + p, |d|) == d'[k..] + d'[..k]
  {
    var k := |second|;
    Parts(second, d[k..h], first);
    Regroup(d[k..h], first, second);
    assert (d[h..] + d[..h] + p)[|p|..] == d[k..h] + p;
  }

  // Before it is full a buffer is written from the start, so a wrapping write drops the overflow in front.
  lemma {:induction false} FillingWithWrap(d: seq<byte>, h: nat, p: seq<byte>, first: seq<byte>, second: seq<byte>)
    requires h + |first| == |d| && p == first + second && second != [] && |p| < |d|
    ensures var k, d' := |second|, second + d[|second|..h] + first;
      LastN(d[..h] + p, |d|) == d'[k..] + d'[..k]
  {
    var k := |second|;
    Parts(second, d[k..h], first);
    Regroup(d[k..h], first, second);
    assert (d[..h] + p)[k..] == d[k..h] + p;
  }

  lemma {:induction false} LastNOfLongEnd(s: seq<byte>, p: seq<byte>, n: nat)
    requires |p| >= n
    ensures LastN(s + p, n) == p[|p| - n..]
  {
  }

  // What two copies make of d: the first to its end from h, the second to its start.
  lemma {:induction false} TwoCopies(d: seq<byte>, h: nat, first: seq<byte>, second: seq<byte>, half: seq<byte>)
    requires h + |first| == |d| && |second| <= h && half == d[..h] + first
    ensures second + half[|second|..] == second + d[|second|..h] + first
  {
    assert half[|second|..] == d[|second|..h] + first;
    Regroup(second, d[|second|..h], first);
  }

  method Mod(x: nat, n: nat) returns (r: nat)
    requires x < 2 * n
    ensures r == if x < n then x else x - n
  {
    r := x % n;
  }

  method CopyInto(dst: array<byte>, at: nat, src: seq<byte>)
    requires at + |src| <= dst.Length
    modifies dst
    ensures dst[..] == old(dst[..at]) + src + old(dst[at + |src|..])
  {
    for i := 0 to |src|
      invariant forall k :: 0 <= k < i ==> dst[at + k] == src[k]
      invariant forall k :: 0 <= k < dst.Length && !(at <= k < at + i) ==> dst[k] == old(dst[k])
    {
      dst[at + i] := src[i];
    }
    assert dst[..at] == old(dst[..at]);
    assert dst[at..at + |src|] == src;
    assert dst[at + |src|..] == old(dst[at + |src|..]);
  }

  class CircularBuffer {
    const data: array<byte>
    var head: nat  // next write position
    var size: nat
    ghost var written: seq<byte>  // everything ever written

    // What the buffer holds, oldest first.  Until it is full it has not wrapped.
    ghost function Contents(): seq<byte>
      reads this, data
      requires Shaped()
    {
      if size < data.Length then data[..size] else data[head..] + data[..head]
    }

    ghost predicate Shaped()
      reads this, data
    {
      && size <= data.Length && head <= data.Length && (head == data.Length ==> data.Length == 0)
      && (size < data.Length ==> head == size)
    }

    ghost predicate Valid()
      reads this, data
    {
      Shaped() && Contents() == LastN(written, data.Length)
    }

    constructor (capacity: nat)
      ensures Valid() && fresh(data) && data.Length == capacity && written == []
    {
      data := new byte[capacity];
      head, size, written := 0, 0, [];
    }

    method Write(p: seq<byte>)
      requires Valid()
      modifies this, data
      ensures Valid() && written == old(written) + p
    {
      LastNAppend(written, p, data.Length);
      Put(p);
      written := written + p;
    }

    method Put(p: seq<byte>)
      requires Shaped()
      modifies this`head, this`size, data
      ensures Shaped() && Contents() == LastN(old(Contents()) + p, data.Length)
    {
      if |p| == 0 {
        assert Contents() + p == Contents();
        return;
      }
      var cap := data.Length;
      if |p| >= cap {
        PutOversized(p);
        return;
      }
      var firstPart := cap - head;
      if firstPart >= |p| {
        PutWithoutWrap(p);
      } else {
        PutWithWrap(p);
      }
      size := size + |p|;
      if size > cap {
        size := cap;
      }
    }

    // Input as long as the buffer: only its own end is kept.
    method PutOversized(p: seq<byte>)
      requires Shaped() && |p| >= data.Length
      modifies this`head, this`size, data
      ensures Shaped() && Contents() == LastN(old(Contents()) + p, data.Length)
    {
      var cap := data.Length;
      LastNOfLongEnd(Contents(), p, cap);
      CopyInto(data, 0, p[|p| - cap..]);
      head, size := 0, cap;
      assert data[0..] + data[..0] == data[..] == p[|p| - cap..];
    }

    // The two copies, before the size is updated.

    method PutWithoutWrap(p: seq<byte>)
      requires Shaped() && 0 < |p| < data.Length && head + |p| <= data.Length
      modifies this`head, data
      ensures head == if old(head) + |p| == data.Length then 0 else old(head) + |p|
      ensures size < data.Length ==> data[..old(head) + |p|] == old(Contents()) + p
      ensures size == data.Length ==> data[head..] + data[..head] == LastN(old(Contents()) + p, data.Length)
    {
      ghost var d := data[..];
      CopyInto(data, head, p);
      Parts(d[..head], p, d[head + |p|..]);
      if size == data.Length {
        FullWithoutWrap(d, head, p, data[..]);
      }
      head := Mod(head + |p|, data.Length);
    }

    method PutWithWrap(p: seq<byte>)
      requires Shaped() && 0 < |p| < data.Length < head + |p|
      modifies this`head, data
      ensures head == old(head) + |p| - data.Length
      ensures data[head..] + data[..head] == LastN(old(Contents()) + p, data.Length)
    {
      ghost var d, h := data[..], head;
      var firstPart := data.Length - head;
      ghost var first, second := p[..firstPart], p[firstPart..];
      assert p == first + second;
      CopyInto(data, head, p[..firstPart]);
      ghost var half := data[..];
      assert half == d[..h] + first;
      CopyInto(data, 0, p[firstPart..]);
      assert data[..] == second + half[|second|..];
      TwoCopies(d, h, first, second, half);
      head := |p| - firstPart;
      if size == data.Length {
        FullWithWrap(d, h, p, first, second);
      } else {
        FillingWithWrap(d, h, p, first, second);
      }
    }

    // The newest bytes of everything written, as many as fit, in order.
    method GetHistory() returns (history: seq<byte>)
      requires Valid()
      ensures history == LastN(written, data.Length)
    {
      if size == 0 {
        return [];
      }
      var cap := data.Length;
      var start := Mod(head + cap - size, cap);
      if start + size <= cap {
        history := data[start..start + size];
      } else {
        var firstPart := cap - start;
        history := data[start..] + data[..size - firstPart];
      }
    }
  }
}

module MetricsHistory {
  import opened Recent

  datatype Metric = Metric(id: nat, tokens: nat)

  class Metrics {
    const maxMetrics: nat
    var metrics: seq<Metric>
    var nextID: nat
    ghost var recorded: seq<Metric>  // every metric ever added, with the id it was given

    // Ids number the metrics from 0 without a gap, and the newest ones are kept.
    ghost predicate Valid()
      reads this
    {
      && nextID == |recorded| && metrics == LastN(recorded, maxMetrics)
      && forall i :: 0 <= i < |recorded| ==> recorded[i].id == i
    }

    constructor (maxMetrics: nat)
      ensures Valid() && this.maxMetrics == maxMetrics && recorded == []
    {
      this.maxMetrics, metrics, nextID, recorded := maxMetrics, [], 0, [];
    }

    method Add(tokens: nat) returns (id: nat)
      requires Valid()
      modifies this
      ensures Valid() && id == |old(recorded)| && recorded == old(recorded) + [Metric(id, tokens)]
    {
      id := nextID;
      nextID := nextID + 1;
      LastNAppend(recorded, [Metric(id, tokens)], maxMetrics);
      metrics := metrics + [Metric(id, tokens)];
      if |metrics| > maxMetrics {
        metrics := metrics[|metrics| - maxMetrics..];
      }
      recorded := recorded + [Metric(id, tokens)];
    }
  }
}
