/** The durable debit log (proxy/debit_log.go): JSONL lines appended and synced one by one, recovered
    after a crash by keeping the good newline-terminated lines and truncating the rest. */
module LogFormat {
  import opened Basics

  datatype DebitEvent = DebitEvent(
    requestId: string,
    seqNo: nat,
    ts: int,
    keyFingerprint: string,
    clientLabel: string,
    model: string,
    inputTokens: int,
    outputTokens: int,
    node: string,
    country: string)

  // The JSON encoder and decoder of an event, as parameters.
  datatype Codec = Codec(encode: DebitEvent -> seq<byte>, decode: seq<byte> -> Option<DebitEvent>) {
    // Encoded events carry no raw newline, and a whole line decodes to the event it was made from.
    ghost predicate Faithful() {
      forall ev :: NEWLINE !in encode(ev) && decode(encode(ev) + [NEWLINE]) == Some(ev)
    }

    function Line(ev: DebitEvent): seq<byte> {
      encode(ev) + [NEWLINE]
    }

    // What an interrupted write can leave of a line without its newline.
    ghost predicate Fragment(f: seq<byte>) {
      f != [] && exists ev :: f <= encode(ev)
    }

    ghost predicate Fragments(fs: seq<seq<byte>>) {
      fs != [] && forall i :: 0 <= i < |fs| ==> Fragment(fs[i])
    }

    // A line glued onto unfinished ones does not decode.
    ghost predicate Strict() {
      forall fs: seq<seq<byte>>, ev :: Fragments(fs) ==> decode(Joined(fs) + Line(ev)).None?
    }
  }

  function Joined(fs: seq<seq<byte>>): seq<byte> {
    if fs == [] then [] else Joined(fs[..|fs| - 1]) + fs[|fs| - 1]
  }

  function Lines(c: Codec, log: seq<DebitEvent>): seq<byte> {
    if log == [] then [] else c.Line(log[0]) + Lines(c, log[1..])
  }

  // The length of the first line with its newline, or 0 when no line is complete.
  function FirstLine(bytes: seq<byte>): (n: nat)
    ensures n <= |bytes|
    ensures n > 0 ==> bytes[n - 1] == NEWLINE
    ensures forall i :: 0 <= i < (if n == 0 then |bytes| else n - 1) ==> bytes[i] != NEWLINE
  {
    if bytes == [] then 0
    else if bytes[0] == NEWLINE then 1
    else
      var rest := FirstLine(bytes[1..]);
      assert forall i :: 0 < i < |bytes| ==> bytes[i] == bytes[1..][i - 1];
      if rest == 0 then 0 else rest + 1
  }

  lemma {:induction false} FirstLineIs(bytes: seq<byte>, n: nat)
    requires 0 < n <= |bytes| && bytes[n - 1] == NEWLINE
    requires forall i :: 0 <= i < n - 1 ==> bytes[i] != NEWLINE
    ensures FirstLine(bytes) == n
  {
  }

  // What recovery keeps of a file: the events of its good lines up to the first bad or torn one, and
  // how many bytes those lines take.
  datatype Recovered = Recovered(events: seq<DebitEvent>, size: nat)

  function Recover(c: Codec, bytes: seq<byte>): (r: Recovered)
    ensures r.size <= |bytes|
    decreases |bytes|
  {
    var n := FirstLine(bytes);
    if n == 0 || c.decode(bytes[..n]).None? then Recovered([], 0)
    else
      var rest := Recover(c, bytes[n..]);
      Recovered([c.decode(bytes[..n]).value] + rest.events, n + rest.size)
  }

  function MaxSeq(events: seq<DebitEvent>): nat {
    if events == [] then 0
    else
      var last := events[|events| - 1].seqNo;
      var m := MaxSeq(events[..|events| - 1]);
      if last > m then last else m
  }

  // Recovery of intact lines followed by bytes of which nothing is kept returns exactly the intact
  // lines' events.
  lemma {:induction false} RecoverLines(c: Codec, log: seq<DebitEvent>, junk: seq<byte>)
    requires c.Faithful() && Recover(c, junk) == Recovered([], 0)
    ensures Recover(c, Lines(c, log) + junk) == Recovered(log, |Lines(c, log)|)
  {
    if log == [] {
      assert Lines(c, log) + junk == junk;
    } else {
      var rest := Lines(c, log[1..]) + junk;
      var bytes := Lines(c, log) + junk;
      assert bytes == c.encode(log[0]) + [NEWLINE] + rest;
      var n := |c.encode(log[0])| + 1;
      FirstLineIs(bytes, n);
      assert bytes[..n] == c.Line(log[0]) && bytes[n..] == rest;
      RecoverLines(c, log[1..], junk);
      assert [log[0]] + log[1..] == log;
    }
  }

  // A line that decodes comes before all that is recovered behind it.
  lemma {:induction false} RecoverNext(c: Codec, restored: seq<DebitEvent>, unread: seq<byte>)
    requires FirstLine(unread) > 0 && c.decode(unread[..FirstLine(unread)]).Some?
    ensures var n := FirstLine(unread);
      && restored + Recover(c, unread).events
         == restored + [c.decode(unread[..n]).value] + Recover(c, unread[n..]).events
      && Recover(c, unread).size == n + Recover(c, unread[n..]).size
  {
    var n := FirstLine(unread);
    var first, later := [c.decode(unread[..n]).value], Recover(c, unread[n..]);
    assert restored + first + later.events == restored + (first + later.events);
  }

  // Nothing is kept of a torn line.
  lemma {:induction false} TornIsLost(c: Codec, torn: seq<byte>)
    requires NEWLINE !in torn
    ensures Recover(c, torn) == Recovered([], 0)
  {
  }

  // Nor of a line that does not decode, or of anything behind it.
  lemma {:induction false} GluedIsLost(c: Codec, fs: seq<seq<byte>>, ev: DebitEvent, rest: seq<byte>)
    requires c.Faithful() && c.Strict() && c.Fragments(fs)
    ensures Recover(c, Joined(fs) + c.Line(ev) + rest) == Recovered([], 0)
  {
    var bytes := Joined(fs) + c.Line(ev) + rest;
    var n := |Joined(fs) + c.Line(ev)|;
    JoinedIsTorn(c, fs);
    FirstLineIs(bytes, n);
    assert bytes[..n] == Joined(fs) + c.Line(ev);
  }

  lemma {:induction false} JoinedIsTorn(c: Codec, fs: seq<seq<byte>>)
    requires c.Faithful() && forall i :: 0 <= i < |fs| ==> c.Fragment(fs[i])
    ensures NEWLINE !in Joined(fs)
  {
    if fs != [] {
      JoinedIsTorn(c, fs[..|fs| - 1]);
      var f := fs[|fs| - 1];
      assert c.Fragment(f);
      var ev :| f <= c.encode(ev);
      assert NEWLINE !in c.encode(ev);
    }
  }

  // A file cut anywhere behind its first line keeps that line.
  lemma {:induction false} RecoverCut(c: Codec, bytes: seq<byte>, size: nat)
    requires 0 < FirstLine(bytes) <= size <= |bytes| && c.decode(bytes[..FirstLine(bytes)]).Some?
    ensures var n := FirstLine(bytes); var rest := Recover(c, bytes[n..][..size - n]);
      Recover(c, bytes[..size]) == Recovered([c.decode(bytes[..n]).value] + rest.events, n + rest.size)
  {
    var n := FirstLine(bytes);
    FirstLineIs(bytes[..size], n);
    assert bytes[..size][..n] == bytes[..n];
    assert bytes[..size][n..] == bytes[n..][..size - n];
  }

  // Whatever is in the file: recovering what recovery kept finds the same events and truncates no more.
  lemma {:induction false} RecoverIdempotent(c: Codec, bytes: seq<byte>)
    ensures Recover(c, bytes[..Recover(c, bytes).size]) == Recover(c, bytes)
    decreases |bytes|
  {
    var n := FirstLine(bytes);
    if n == 0 || c.decode(bytes[..n]).None? {
      assert bytes[..0] == [];
    } else {
      RecoverIdempotent(c, bytes[n..]);
      RecoverCut(c, bytes, n + Recover(c, bytes[n..]).size);
    }
  }

  lemma {:induction false} LinesAppend(c: Codec, log: seq<DebitEvent>, ev: DebitEvent)
    ensures Lines(c, log + [ev]) == Lines(c, log) + c.Line(ev)
  {
    if log == [] {
      assert log + [ev] == [ev];
      assert Lines(c, [ev]) == c.Line(ev) + Lines(c, []);
    } else {
      LinesAppend(c, log[1..], ev);
      assert (log + [ev])[1..] == log[1..] + [ev];
    }
  }

  // Seq i+1 at position i: gap-free, in order, and never issued twice.
  ghost predicate Numbered(log: seq<DebitEvent>) {
    forall i :: 0 <= i < |log| ==> log[i].seqNo == i + 1
  }

  lemma {:induction false} MaxSeqAppend(events: seq<DebitEvent>, ev: DebitEvent)
    ensures MaxSeq(events + [ev]) == if ev.seqNo > MaxSeq(events) then ev.seqNo else MaxSeq(events)
  {
    assert (events + [ev])[..|events|] == events;
  }

  lemma {:induction false} MaxSeqOfNumbered(log: seq<DebitEvent>)
    requires Numbered(log)
    ensures MaxSeq(log) == |log|
  {
    if log != [] {
      MaxSeqOfNumbered(log[..|log| - 1]);
    }
  }

  // The events a cursor has not reached.
  function Past(events: seq<DebitEvent>, cursor: nat): seq<DebitEvent> {
    if events == [] then []
    else
      var last := events[|events| - 1];
      Past(events[..|events| - 1], cursor) + if last.seqNo > cursor then [last] else []
  }

  lemma {:induction false} PastOfNumbered(log: seq<DebitEvent>, cursor: nat)
    requires Numbered(log)
    ensures Past(log, cursor) == if cursor <= |log| then log[cursor..] else []
  {
    if log != [] {
      var init, last := log[..|log| - 1], log[|log| - 1];
      PastOfNumbered(init, cursor);
      assert Past(log, cursor) == if cursor < |log| then Past(init, cursor) + [last] else Past(init, cursor);
      if cursor < |log| {
        assert init[cursor..] + [last] == log[cursor..];
      }
    }
  }

  // ---- the log's own state, and what each operation makes of it ----

  datatype Store = Store(
    bytes: seq<byte>,         // the file; a missing one reads as empty
    open: bool,               // whether there is an append handle
    events: seq<DebitEvent>,
    seqNo: nat)

  // What can go wrong while opening.
  datatype Fault = NoFault | ReadFails | TruncateFails | OpenFails

  // Opening at a configured path.  Any fault leaves the log disabled.
  function Opened(c: Codec, bytes: seq<byte>, fault: Fault): Store {
    var r := Recover(c, bytes);
    if fault.ReadFails? then Store(bytes, false, [], 0)
    else if fault.TruncateFails? && r.size < |bytes| then Store(bytes, false, r.events, MaxSeq(r.events))
    else Store(bytes[..r.size], !fault.OpenFails?, r.events, MaxSeq(r.events))
  }

  function Stamped(s: Store, ev: DebitEvent): DebitEvent {
    ev.(seqNo := s.seqNo + 1)
  }

  function Appended(c: Codec, s: Store, ev: DebitEvent): Store {
    if !s.open then s
    else Store(s.bytes + c.Line(Stamped(s, ev)), true, s.events + [Stamped(s, ev)], s.seqNo + 1)
  }

  // The first n bytes of the line, or all of it.
  function Persisted(c: Codec, ev: DebitEvent, n: nat): seq<byte> {
    if n < |c.Line(ev)| then c.Line(ev)[..n] else c.Line(ev)
  }

  // A failed write or sync: n bytes of the line reached the file, and memory knows nothing of it.
  function Failed(c: Codec, s: Store, ev: DebitEvent, n: nat): Store {
    if !s.open then s else s.(bytes := s.bytes + Persisted(c, Stamped(s, ev), n))
  }

  function Closed(s: Store): Store {
    s.(open := false)
  }
}

module DebitLog {
  import opened Basics
  import opened LogFormat

  class Disk {
    var bytes: seq<byte>  // the log file; a missing file reads as an empty one

    constructor ()
      ensures bytes == []
    {
      bytes := [];
    }
  }

  class Log {
    const codec: Codec
    const disk: Disk
    var open: bool
    var seqNo: nat
    var events: seq<DebitEvent>

    function View(): Store
      reads this, disk
    {
      Store(disk.bytes, open, events, seqNo)
    }

    // Opens the log at its path, or leaves it disabled when no path is configured or a fault comes up.
    constructor (codec: Codec, disk: Disk, configured: bool, fault: Fault)
      modifies disk
      ensures this.codec == codec && this.disk == disk
      ensures configured ==> View() == Opened(codec, old(disk.bytes), fault)
      ensures !configured ==> View() == Store(old(disk.bytes), false, [], 0)
      ensures open <==> configured
                        && (fault.NoFault?
                            || (fault.TruncateFails? && Recover(codec, old(disk.bytes)).size == |old(disk.bytes)|))
      ensures fault.ReadFails? ==> disk.bytes == old(disk.bytes) && events == []
      ensures fault.TruncateFails? ==> disk.bytes == old(disk.bytes)
    {
      this.codec, this.disk := codec, disk;
      open, seqNo, events := false, 0, [];
      new;
      if configured {
        var ok := Load(fault);
        if ok && !fault.OpenFails? {
          open := true;
        }
      }
    }

    method Load(fault: Fault) returns (ok: bool)
      requires !open && seqNo == 0 && events == []
      modifies this`seqNo, this`events, disk
      ensures View() == Opened(codec, old(disk.bytes), fault).(open := false)
      ensures ok <==>
                && !fault.ReadFails?
                && (fault.TruncateFails? ==> Recover(codec, old(disk.bytes)).size == |old(disk.bytes)|)
    {
      if fault.ReadFails? {
        return false;
      }
      var goodOffset;
      events, seqNo, goodOffset := Scan(disk.bytes);
      if goodOffset < |disk.bytes| {
        if fault.TruncateFails? {
          return false;
        }
        disk.bytes := disk.bytes[..goodOffset];
      }
      ok := true;
    }

    // Reads line after line until one is torn or does not decode.
    method Scan(file: seq<byte>) returns (restored: seq<DebitEvent>, maxSeq: nat, goodOffset: nat)
      ensures Recovered(restored, goodOffset) == Recover(codec, file) && maxSeq == MaxSeq(restored)
    {
      var unread := file;
      restored, maxSeq, goodOffset := [], 0, 0;
      while true
        invariant restored + Recover(codec, unread).events == Recover(codec, file).events
        invariant goodOffset + Recover(codec, unread).size == Recover(codec, file).size
        invariant maxSeq == MaxSeq(restored)
        decreases |unread|
      {
        var n := FirstLine(unread);
        if n == 0 {
          break;
        }
        var ev := codec.decode(unread[..n]);
        if ev.None? {
          break;
        }
        RecoverNext(codec, restored, unread);
        MaxSeqAppend(restored, ev.value);
        restored := restored + [ev.value];
        if ev.value.seqNo > maxSeq {
          maxSeq := ev.value.seqNo;
        }
        goodOffset := goodOffset + n;
        unread := unread[n..];
      }
      assert restored + [] == restored;
    }

    // `failure`: the write or the sync reports an error, after that many bytes of the line reached the disk.
    method Append(ev: DebitEvent, failure: Option<nat>) returns (stamped: DebitEvent, ok: bool)
      modifies this`seqNo, this`events, disk
      ensures ok == (!open || failure.None?)
      ensures stamped == if open then Stamped(old(View()), ev) else ev
      ensures open && failure.None? ==>
                disk.bytes == old(disk.bytes) + codec.encode(ev.(seqNo := old(seqNo) + 1)) + [NEWLINE]
      ensures seqNo == old(seqNo) + if open && failure.None? then 1 else 0
      ensures events == if open && failure.None? then old(events) + [ev.(seqNo := old(seqNo) + 1)] else old(events)
      ensures View() == if failure.None? then Appended(codec, old(View()), ev)
                        else Failed(codec, old(View()), ev, failure.value)
    {
      if !open {
        return ev, true;
      }
      stamped := ev.(seqNo := seqNo + 1);
      if failure.Some? {
        disk.bytes := disk.bytes + Persisted(codec, stamped, failure.value);
        return stamped, false;
      }
      disk.bytes := disk.bytes + codec.Line(stamped);
      seqNo := stamped.seqNo;
      events := events + [stamped];
      ok := true;
    }

    // The unread events and the head, from one snapshot.
    method SinceWithHead(cursor: nat) returns (out: seq<DebitEvent>, head: nat)
      ensures out == Past(events, cursor) && head == seqNo
    {
      out := [];
      for i := 0 to |events|
        invariant out == Past(events[..i], cursor)
      {
        assert events[..i + 1][..i] == events[..i];
        if events[i].seqNo > cursor {
          out := out + [events[i]];
        }
      }
      assert events[..|events|] == events;
      head := seqNo;
    }

    method Close()
      modifies this`open
      ensures View() == Closed(old(View()))
    {
      open := false;
    }
  }
}
