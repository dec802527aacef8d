/** The browser side of the log stream (frontend/src/api.ts): chunks of text are buffered,
    cut at blank lines and parsed as server-sent events (section 9.2 of the WHATWG HTML
    Living Standard). */
module EventStream {
  import opened Text

  // JavaScript string operations

  /** What trim and trimStart remove. */
  predicate JsSpace(c: char) {
    var n := c as int;
    || 9 <= n <= 13 || n == 32 || n == 0xA0 || n == 0x1680 || 0x2000 <= n <= 0x200A
    || n == 0x2028 || n == 0x2029 || n == 0x202F || n == 0x205F || n == 0x3000 || n == 0xFEFF
  }

  function TrimStart(s: string): string {
    if s != "" && JsSpace(s[0]) then TrimStart(s[1..]) else s
  }

  function TrimEnd(s: string): string {
    if s != "" && JsSpace(s[|s| - 1]) then TrimEnd(s[..|s| - 1]) else s
  }

  function Trim(s: string): string { TrimEnd(TrimStart(s)) }

  /** split(/\r?\n/). */
  function SplitLines(s: string): (lines: seq<string>)
    ensures |lines| >= 1
  {
    DropReturns(Split(s, '\n'))
  }

  /** A carriage return is part of the separator when a newline follows it. */
  function DropReturns(parts: seq<string>): (lines: seq<string>)
    ensures |lines| == |parts|
  {
    if |parts| <= 1 then parts
    else
      var first := parts[0];
      [if first != "" && first[|first| - 1] == '\r' then first[..|first| - 1] else first] + DropReturns(parts[1..])
  }

  /** indexOf("\n\n"); the length of the text when there is none. */
  function Boundary(s: string): (i: nat)
    ensures i <= |s|
    ensures i < |s| ==> i + 1 < |s| && s[i] == '\n' && s[i + 1] == '\n'
    ensures forall k :: 0 <= k < i && k + 1 < |s| ==> !(s[k] == '\n' && s[k + 1] == '\n')
  {
    if s == "" then 0
    else if |s| > 1 && s[0] == '\n' && s[1] == '\n' then 0
    else 1 + Boundary(s[1..])
  }

  /** No complete block separator. */
  ghost predicate NoBoundary(s: string) {
    forall k :: 0 <= k < |s| - 1 ==> !(s[k] == '\n' && s[k + 1] == '\n')
  }

  // One event block

  datatype Event = Event(event: string, data: seq<string>)

  const EVENT := "event:"
  const DATA := "data:"

  function ReadLine(e: Event, line: string): Event {
    if ":" <= line then e
    else if EVENT <= line then e.(event := Trim(line[|EVENT|..]))
    else if DATA <= line then e.(data := e.data + [TrimStart(line[|DATA|..])])
    else e
  }

  function ReadLines(e: Event, lines: seq<string>): Event
    decreases |lines|
  {
    if lines == [] then e else ReadLines(ReadLine(e, lines[0]), lines[1..])
  }

  function ParseEvent(block: string): Event {
    ReadLines(Event("message", []), SplitLines(block))
  }

  method ParseServerSentEvent(block: string) returns (event: string, data: string)
    ensures event == ParseEvent(block).event && data == Join(ParseEvent(block).data, "\n")
  {
    event := "message";
    var parts: seq<string> := [];
    var lines := SplitLines(block);
    for i := 0 to |lines|
      invariant ParseEvent(block) == ReadLines(Event(event, parts), lines[i..])
    {
      var line := lines[i];
      assert lines[i..][1..] == lines[i + 1..];
      if ":" <= line { continue; }
      if EVENT <= line { event := Trim(line[|EVENT|..]); }
      if DATA <= line { parts := parts + [TrimStart(line[|DATA|..])]; }
    }
    data := Join(parts, "\n");
  }

  // The buffering loop

  /** What the callback has been given, and whether the stream has thrown. */
  datatype Outcome = Outcome(delivered: seq<string>, rest: string, thrown: bool, message: string)

  predicate IsLog(block: string) {
    var e := ParseEvent(block);
    e.event == "log" && Join(e.data, "\n") != ""
  }

  predicate IsError(block: string) {
    var e := ParseEvent(block);
    e.event == "error" && Join(e.data, "\n") != ""
  }

  function Data(block: string): string { Join(ParseEvent(block).data, "\n") }

  /** replace(/^"|"$/g, ""). */
  function StripQuotes(s: string): string {
    var s' := if s != "" && s[0] == '"' then s[1..] else s;
    if s' != "" && s'[|s'| - 1] == '"' then s'[..|s'| - 1] else s'
  }

  /** All the complete blocks of a buffer, up to the first error. */
  function Drain(buffer: string): (o: Outcome)
    ensures !o.thrown ==> NoBoundary(o.rest)
    decreases |buffer|
  {
    var boundary := Boundary(buffer);
    if boundary == |buffer| then Outcome([], buffer, false, "")
    else
      var block, rest := buffer[..boundary], buffer[boundary + 2..];
      if IsError(block) then Outcome([], rest, true, StripQuotes(Data(block)))
      else
        var o := Drain(rest);
        if IsLog(block) then o.(delivered := [Data(block)] + o.delivered) else o
  }

  class LogStreamReader {
    var buffer: string
    var delivered: seq<string>

    constructor ()
      ensures buffer == "" && delivered == []
    {
      buffer, delivered := "", [];
    }

    /** One decoded chunk. */
    method Receive(chunk: string) returns (thrown: bool, message: string)
      modifies this
      ensures var o := Drain(old(buffer) + chunk);
              && delivered == old(delivered) + o.delivered
              && buffer == o.rest && thrown == o.thrown && message == o.message
      ensures !thrown ==> NoBoundary(buffer)
    {
      buffer := buffer + chunk;
      ghost var all := buffer;
      var boundary := Boundary(buffer);
      while boundary < |buffer|
        invariant boundary == Boundary(buffer)
        invariant Resume(old(delivered), all) == Resume(delivered, buffer)
        decreases |buffer|
      {
        var eventBlock := buffer[..boundary];
        var event, data := ParseServerSentEvent(eventBlock);
        ResumeStep(delivered, buffer);
        buffer := buffer[boundary + 2..];
        if event == "log" && data != "" { delivered := delivered + [data]; }
        if event == "error" && data != "" { return true, StripQuotes(data); }
        boundary := Boundary(buffer);
      }
      return false, "";
    }
  }

  /** The outcome of draining, after what was delivered before. */
  function Resume(delivered: seq<string>, buffer: string): Outcome {
    var o := Drain(buffer);
    o.(delivered := delivered + o.delivered)
  }

  lemma ResumeStep(delivered: seq<string>, buffer: string)
    requires Boundary(buffer) < |buffer|
    ensures var block, rest := buffer[..Boundary(buffer)], buffer[Boundary(buffer) + 2..];
            Resume(delivered, buffer)
            == if IsError(block) then Outcome(delivered, rest, true, StripQuotes(Data(block)))
               else if IsLog(block) then Resume(delivered + [Data(block)], rest)
               else Resume(delivered, rest)
  {
    var block, rest := buffer[..Boundary(buffer)], buffer[Boundary(buffer) + 2..];
    assert delivered + ([Data(block)] + Drain(rest).delivered) == (delivered + [Data(block)]) + Drain(rest).delivered;
  }

  // Chunks

  function Concat(chunks: seq<string>): string {
    if chunks == [] then "" else chunks[0] + Concat(chunks[1..])
  }

  /** Feeding chunks one by one until one throws. */
  function Feed(buffer: string, chunks: seq<string>): Outcome
    decreases |chunks|
  {
    if chunks == [] then Outcome([], buffer, false, "")
    else
      var o := Drain(buffer + chunks[0]);
      if o.thrown then o
      else var later := Feed(o.rest, chunks[1..]); later.(delivered := o.delivered + later.delivered)
  }

  /** Same deliveries, same error; without an error also the same buffer. */
  predicate SameOutcome(a: Outcome, b: Outcome) {
    && a.delivered == b.delivered && a.thrown == b.thrown && a.message == b.message
    && (!a.thrown ==> a.rest == b.rest)
  }

  lemma BoundaryAt(s: string, i: nat)
    requires i + 1 < |s| && s[i] == '\n' && s[i + 1] == '\n'
    requires forall k :: 0 <= k < i ==> !(s[k] == '\n' && s[k + 1] == '\n')
    ensures Boundary(s) == i
  {}

  lemma NoBoundaryAtEnd(s: string)
    requires NoBoundary(s)
    ensures Boundary(s) == |s|
  {}

  /** Outcome o after ds have been delivered. */
  function After(ds: seq<string>, o: Outcome): Outcome { o.(delivered := ds + o.delivered) }

  /** Draining a text whose first block is known. */
  lemma DrainFirst(block: string, rest: string)
    requires NoBoundary(block + "\n")
    ensures Drain(block + "\n\n" + rest)
            == if IsError(block) then Outcome([], rest, true, StripQuotes(Data(block)))
               else if IsLog(block) then After([Data(block)], Drain(rest))
               else Drain(rest)
  {
    var s := block + "\n\n" + rest;
    forall k | 0 <= k < |block| ensures !(s[k] == '\n' && s[k + 1] == '\n') {
      assert (block + "\n")[k] == s[k] && (block + "\n")[k + 1] == s[k + 1];
    }
    BoundaryAt(s, |block|);
    assert s[..|block|] == block && s[|block| + 2..] == rest;
  }

  lemma CutFirst(s: string) returns (block: string, rest: string)
    requires Boundary(s) < |s|
    ensures s == block + "\n\n" + rest && NoBoundary(block + "\n")
  {
    var i := Boundary(s);
    block, rest := s[..i], s[i + 2..];
    forall k | 0 <= k < |block| ensures !((block + "\n")[k] == '\n' && (block + "\n")[k + 1] == '\n') {
      assert !(s[k] == '\n' && s[k + 1] == '\n');
    }
  }

  lemma DrainNothing(s: string)
    requires Boundary(s) == |s|
    ensures Drain(s) == Outcome([], s, false, "")
  {}

  /** Draining in two parts is draining once. */
  lemma {:induction false} DrainSplit(a: string, b: string)
    ensures var first := Drain(a);
            SameOutcome(Drain(a + b), if first.thrown then first else After(first.delivered, Drain(first.rest + b)))
    decreases |a|
  {
    hide Drain, IsError, IsLog, Data, StripQuotes;
    if Boundary(a) == |a| {
      DrainNothing(a);
    } else {
      var block, rest := CutFirst(a);
      DrainFirst(block, rest);
      DrainFirst(block, rest + b);
      assert a + b == block + "\n\n" + (rest + b);
      DrainSplit(rest, b);
    }
  }

  /** However the text is cut into chunks, the reader does what it would do with all of it at once. */
  lemma {:induction false} ChunkingIrrelevant(buffer: string, chunks: seq<string>)
    requires NoBoundary(buffer)
    ensures SameOutcome(Feed(buffer, chunks), Drain(buffer + Concat(chunks)))
    decreases |chunks|
  {
    if chunks == [] {
      assert buffer + "" == buffer;
      NoBoundaryAtEnd(buffer);
      return;
    }
    hide *;
    var first, later := chunks[0], chunks[1..];
    var o := Drain(buffer + first);
    FeedStep(buffer, chunks);
    DrainSplit(buffer + first, Concat(later));
    if !o.thrown {
      ChunkingIrrelevant(o.rest, later);
      SameAfter(o.delivered, Feed(o.rest, later), Drain(o.rest + Concat(later)));
      SameTransitive(Feed(buffer, chunks), After(o.delivered, Drain(o.rest + Concat(later))), Drain(buffer + Concat(chunks)));
    } else {
      SameTransitive(Feed(buffer, chunks), o, Drain(buffer + Concat(chunks)));
    }
  }

  lemma FeedStep(buffer: string, chunks: seq<string>)
    requires chunks != []
    ensures buffer + Concat(chunks) == (buffer + chunks[0]) + Concat(chunks[1..])
    ensures var o := Drain(buffer + chunks[0]);
            Feed(buffer, chunks) == if o.thrown then o else After(o.delivered, Feed(o.rest, chunks[1..]))
  {
    hide Drain;
    assert buffer + (chunks[0] + Concat(chunks[1..])) == (buffer + chunks[0]) + Concat(chunks[1..]);
  }

  lemma SameAfter(ds: seq<string>, a: Outcome, b: Outcome)
    requires SameOutcome(a, b)
    ensures SameOutcome(After(ds, a), After(ds, b))
  {}

  /** The second outcome is seen from both sides. */
  lemma SameTransitive(a: Outcome, b: Outcome, c: Outcome)
    requires a == b || SameOutcome(a, b)
    requires SameOutcome(c, b)
    ensures SameOutcome(a, c)
  {}

  /** What part of the text delivers is the beginning of what the whole delivers. */
  lemma DeliveredPrefix(a: string, b: string)
    ensures Drain(a).delivered <= Drain(a + b).delivered
  {
    DrainSplit(a, b);
  }
}
