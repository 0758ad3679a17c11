/** The backward scan of a streamed response for its last usage line (proxy/metrics_monitor.go). */
module StreamScan {
  import opened Basics

  type Bytes = seq<byte>

  const DATA: Bytes := [100, 97, 116, 97, 58]  // data:
  const DONE: Bytes := [91, 68, 79, 78, 69, 93]  // [DONE]

  // What the scan takes from the libraries: trimming, and whether a payload is valid JSON with a usage or
  // a timings member.  Trimming nothing gives nothing.
  datatype Library = Library(trim: Bytes -> Bytes, usable: Bytes -> bool)

  // The payload a line carries, if the scan would stop at it.
  function Payload(lib: Library, line: Bytes): Option<Bytes> {
    var t := lib.trim(line);
    if t == [] || !(DATA <= t) then None
    else
      var data := lib.trim(t[|DATA|..]);
      if data == [] || data == DONE || !lib.usable(data) then None else Some(data)
  }

  // The characters of s, one byte each.
  ghost predicate Spells(b: Bytes, s: string) {
    |b| == |s| && forall i :: 0 <= i < |s| ==> b[i] as int == s[i] as int
  }

  lemma {:induction false} MarkersSpell(b: Bytes)
    ensures Spells(b, "data:") <==> b == DATA
    ensures Spells(b, "[DONE]") <==> b == DONE
  {
  }

  // A line carries what follows "data:", trimmed, unless that is empty, "[DONE]" or not usable.
  ghost predicate Carries(lib: Library, line: Bytes, prefix: Bytes, rest: Bytes) {
    && Spells(prefix, "data:") && lib.trim(line) == prefix + rest
    && lib.trim(rest) != [] && !Spells(lib.trim(rest), "[DONE]") && lib.usable(lib.trim(rest))
  }

  lemma {:induction false} PayloadIff(lib: Library, line: Bytes, data: Bytes)
    ensures Payload(lib, line) == Some(data)
      <==> exists prefix, rest :: Carries(lib, line, prefix, rest) && data == lib.trim(rest)
  {
    forall prefix, rest | Carries(lib, line, prefix, rest)
      ensures Payload(lib, line) == Some(lib.trim(rest))
    {
      MarkersSpell(prefix);
      MarkersSpell(lib.trim(rest));
      assert (DATA + rest)[|DATA|..] == rest;
    }
    if Payload(lib, line) == Some(data) {
      var rest := lib.trim(line)[|DATA|..];
      MarkersSpell(DATA);
      MarkersSpell(data);
      assert lib.trim(line) == DATA + rest;
      assert Carries(lib, line, DATA, rest);
    }
  }

  // The lines of a body, as splitting it on newlines gives them: one more than it has newlines.
  function Lines(body: Bytes): (lines: seq<Bytes>)
    ensures lines != []
  {
    var i := FirstNewline(body);
    if i == |body| then [body] else [body[..i]] + Lines(body[i + 1..])
  }

  function FirstNewline(body: Bytes): (i: nat)
    ensures i <= |body| && (i < |body| ==> body[i] == NEWLINE)
    ensures forall k :: 0 <= k < i ==> body[k] != NEWLINE
  {
    if body == [] || body[0] == NEWLINE then 0 else FirstNewline(body[1..]) + 1
  }

  function LastPayload(lib: Library, lines: seq<Bytes>): Option<Bytes> {
    if lines == [] then None
    else if Payload(lib, lines[|lines| - 1]).Some? then Payload(lib, lines[|lines| - 1])
    else LastPayload(lib, lines[..|lines| - 1])
  }

  lemma {:induction false} OneLine(body: Bytes)
    requires NEWLINE !in body
    ensures Lines(body) == [body]
  {
  }

  lemma {:induction false} FirstIs(body: Bytes, i: nat)
    requires i < |body| && body[i] == NEWLINE && forall k :: 0 <= k < i ==> body[k] != NEWLINE
    ensures FirstNewline(body) == i
  {
  }

  // Bytes behind the first newline do not touch the first line.
  lemma {:induction false} LinesAfterFirst(a: Bytes, rest: Bytes)
    requires FirstNewline(a) < |a|
    ensures var i := FirstNewline(a); Lines(a + rest) == [a[..i]] + Lines(a[i + 1..] + rest)
  {
    var i := FirstNewline(a);
    assert (a + rest)[..i] == a[..i];
    FirstIs(a + rest, i);
    assert (a + rest)[i + 1..] == a[i + 1..] + rest;
  }

  lemma {:induction false} TwoLines(a: Bytes, b: Bytes)
    requires NEWLINE !in a && NEWLINE !in b
    ensures Lines(a + ([NEWLINE] + b)) == [a, b]
  {
    var body := a + ([NEWLINE] + b);
    FirstIs(body, |a|);
    assert body[..|a|] == a && body[|a| + 1..] == b;
    OneLine(b);
  }

  // A last newline splits off the last line.
  lemma {:induction false} LastLine(a: Bytes, b: Bytes)
    requires NEWLINE !in b
    ensures Lines(a + ([NEWLINE] + b)) == Lines(a) + [b]
    decreases |a|
  {
    var i := FirstNewline(a);
    if i == |a| {
      OneLine(a);
      TwoLines(a, b);
    } else {
      LastLine(a[i + 1..], b);
      FirstOfMore(a, b, Lines(a[i + 1..]));
    }
  }

  lemma {:induction false} FirstOfMore(a: Bytes, b: Bytes, others: seq<Bytes>)
    requires var i := FirstNewline(a);
      i < |a| && others == Lines(a[i + 1..]) && Lines(a[i + 1..] + ([NEWLINE] + b)) == others + [b]
    ensures Lines(a + ([NEWLINE] + b)) == Lines(a) + [b]
  {
    var first := [a[..FirstNewline(a)]];
    LinesAfterFirst(a, [NEWLINE] + b);
    Regroup(first, others, [b]);
    assert Lines(a) == first + others;
  }

  lemma {:induction false} Regroup(x: seq<Bytes>, y: seq<Bytes>, z: seq<Bytes>)
    ensures x + (y + z) == x + y + z
  {
  }

  lemma {:induction false} SplitAtLast(body: Bytes, at: nat)
    requires at < |body| && body[at] == NEWLINE && NEWLINE !in body[at + 1..]
    ensures Lines(body) == Lines(body[..at]) + [body[at + 1..]]
  {
    LastLine(body[..at], body[at + 1..]);
    assert body == body[..at] + ([NEWLINE] + body[at + 1..]);
  }

  // The last newline before pos, or -1.
  method LastNewline(body: Bytes, pos: nat) returns (i: int)
    requires pos <= |body|
    ensures -1 <= i < pos && (i >= 0 ==> body[i] == NEWLINE)
    ensures forall k :: i < k < pos ==> body[k] != NEWLINE
  {
    i := pos - 1;
    while i >= 0 && body[i] != NEWLINE
      invariant -1 <= i < pos && forall k :: i < k < pos ==> body[k] != NEWLINE
    {
      i := i - 1;
    }
  }

  // One step back: the line after the last newline decides, or else the lines before that newline.
  lemma {:induction false} StepBack(lib: Library, body: Bytes, pos: nat, at: int)
    requires pos <= |body| && -1 <= at < pos && (at >= 0 ==> body[at] == NEWLINE)
    requires forall k :: at < k < pos ==> body[k] != NEWLINE
    ensures var line := body[at + 1..pos];
      LastPayload(lib, Lines(body[..pos]))
      == if Payload(lib, line).Some? then Payload(lib, line)
         else if at < 0 then None else LastPayload(lib, Lines(body[..at]))
  {
    var upTo := body[..pos];
    assert NEWLINE !in body[at + 1..pos];
    if at == -1 {
      OneLine(upTo);
      assert upTo == body[0..pos];
    } else {
      assert upTo[at + 1..] == body[at + 1..pos] && upTo[..at] == body[..at];
      SplitAtLast(upTo, at);
      var lines := Lines(body[..at]);
      assert (lines + [body[at + 1..pos]])[..|lines|] == lines;
    }
  }

  // What the scan makes of one line.
  method PayloadOf(lib: Library, raw: Bytes) returns (payload: Option<Bytes>)
    requires lib.trim([]) == []
    ensures payload == Payload(lib, raw)
  {
    var line := lib.trim(raw);
    if |line| == 0 || !(DATA <= line) {
      return None;
    }
    var data := lib.trim(line[|DATA|..]);
    if |data| == 0 || data == DONE {
      return None;
    }
    return if lib.usable(data) then Some(data) else None;
  }

  // For every body the scan ends, and stops at the last line that carries a payload.
  method Scan(lib: Library, body: Bytes) returns (found: Option<Bytes>)
    requires lib.trim([]) == []
    ensures found == LastPayload(lib, Lines(body))
  {
    var pos := |body|;
    ghost var answer := LastPayload(lib, Lines(body));
    assert body[..pos] == body;
    while pos > 0
      invariant -1 <= pos <= |body|
      invariant answer == if pos < 0 then None else LastPayload(lib, Lines(body[..pos]))
    {
      var lineStart := LastNewline(body, pos);
      StepBack(lib, body, pos, lineStart);
      if lineStart == -1 {
        lineStart := 0;
      } else {
        lineStart := lineStart + 1;
      }
      var payload := PayloadOf(lib, body[lineStart..pos]);
      pos := lineStart - 1;
      if payload.Some? {
        return payload;
      }
    }
    if pos == 0 {
      NoLine(lib, body);
    }
    return None;
  }

  lemma {:induction false} NoLine(lib: Library, body: Bytes)
    requires lib.trim([]) == []
    ensures LastPayload(lib, Lines(body[..0])) == None
  {
    OneLine(body[..0]);
    assert body[..0] == [];
  }

  // Nothing is found exactly when no line of the body carries a payload.
  lemma {:induction false} NothingFoundIff(lib: Library, lines: seq<Bytes>)
    ensures LastPayload(lib, lines) == None <==> forall k :: 0 <= k < |lines| ==> Payload(lib, lines[k]) == None
  {
    if lines != [] {
      var init := lines[..|lines| - 1];
      NothingFoundIff(lib, init);
      assert forall k :: 0 <= k < |init| ==> init[k] == lines[k];
    }
  }

  // What is found is the payload of a line after which no line carries one.
  lemma {:induction false} FoundIsLast(lib: Library, lines: seq<Bytes>) returns (i: nat)
    requires LastPayload(lib, lines).Some?
    ensures i < |lines| && LastPayload(lib, lines) == Payload(lib, lines[i])
    ensures forall k :: i < k < |lines| ==> Payload(lib, lines[k]) == None
  {
    if Payload(lib, lines[|lines| - 1]).Some? {
      i := |lines| - 1;
    } else {
      i := FoundIsLast(lib, lines[..|lines| - 1]);
    }
  }
}
