/** Server and browser together: what the browser's callback receives, for every way the
    byte stream is cut into chunks. */
module LogDelivery {
  import opened Text
  import opened LogServer
  import opened Wrappers
  import opened EventStream

  // One frame

  predicate OneLine(s: string) { '\n' !in s && '\r' !in s }

  /** Log payloads are JSON objects on one line; quoted error texts are Go %q strings. */
  predicate WellFormed(f: Frame) {
    match f
    case LogFrame(payload) => payload != "" && payload[0] == '{' && OneLine(payload)
    case KeepAlive => true
    case ErrorFrame(quoted) => |quoted| >= 2 && quoted[0] == '"' && quoted[|quoted| - 1] == '"' && OneLine(quoted)
  }

  /** A frame without its blank line. */
  function Block(f: Frame): string {
    match f
    case LogFrame(payload) => "event: log\n" + "data: " + payload
    case KeepAlive => ": keepalive"
    case ErrorFrame(quoted) => "event: error\n" + "data: " + quoted
  }

  lemma TwoLines(a: string, b: string)
    requires OneLine(a) && OneLine(b) && a != ""
    ensures SplitLines(a + "\n" + b) == [a, b]
    ensures NoBoundary(a + "\n" + b + "\n") <== b != ""
  {
    SplitConcat(a, '\n', b);
    SplitWhole(a, '\n');
    SplitWhole(b, '\n');
    assert a + ['\n'] + b == a + "\n" + b;
    assert a[|a| - 1] in a;
    assert Split(a + "\n" + b, '\n') == [a, b] && [a, b][1..] == [b];
    assert DropReturns([b]) == [b] && DropReturns([a, b]) == [a] + DropReturns([b]);
    if b != "" {
      var s := a + "\n" + b + "\n";
      forall k | 0 <= k < |s| - 1 ensures !(s[k] == '\n' && s[k + 1] == '\n') {
        if k < |a| {
          assert s[k] == a[k] && a[k] in a;
        } else if k == |a| {
          assert s[k + 1] == b[0] && b[0] in b;
        } else {
          assert s[k] == b[k - |a| - 1] && b[k - |a| - 1] in b;
        }
      }
    }
  }

  /** An event line and a data line. */
  lemma ParseTwoLines(name: string, data: string)
    requires OneLine(name) && OneLine(data) && data != "" && !JsSpace(data[0])
    requires Trim(" " + name) == name
    ensures ParseEvent("event: " + name + "\n" + ("data: " + data)) == Event(name, [data])
    ensures NoBoundary("event: " + name + "\n" + ("data: " + data) + "\n")
  {
    var first, second := "event: " + name, "data: " + data;
    TwoLines(first, second);
    assert first[|EVENT|..] == " " + name && second[|DATA|..] == " " + data;
    assert EVENT <= first && !(":" <= first) && !(EVENT <= second) && DATA <= second && !(":" <= second);
    assert (" " + data)[1..] == data;
    assert TrimStart(" " + data) == data;
    var start := Event("message", []);
    var one := ReadLine(start, first);
    assert one == Event(name, []);
    assert ReadLine(one, second) == Event(name, [data]);
    assert [first, second][1..] == [second];
    assert ReadLines(start, [first, second]) == ReadLines(one, [second]) == Event(name, [data]);
  }

  lemma LogParses(payload: string)
    requires WellFormed(LogFrame(payload))
    ensures var block := Block(LogFrame(payload));
            ParseEvent(block) == Event("log", [payload]) && NoBoundary(block + "\n")
  {
    assert " log"[1..] == "log";
    assert TrimStart(" log") == "log" && Trim(" " + "log") == "log";
    ParseTwoLines("log", payload);
    assert Block(LogFrame(payload)) == "event: " + "log" + "\n" + ("data: " + payload);
  }

  lemma ErrorParses(quoted: string)
    requires WellFormed(ErrorFrame(quoted))
    ensures var block := Block(ErrorFrame(quoted));
            ParseEvent(block) == Event("error", [quoted]) && NoBoundary(block + "\n")
  {
    ErrorName();
    hide Trim, TrimStart, ParseEvent, NoBoundary;
    ParseTwoLines("error", quoted);
    assert Block(ErrorFrame(quoted)) == "event: " + "error" + "\n" + ("data: " + quoted);
  }

  lemma ErrorName()
    ensures Trim(" " + "error") == "error" && OneLine("error")
  {
    assert " error"[1..] == "error";
    assert TrimStart(" error") == "error";
  }

  lemma KeepAliveParses()
    ensures ParseEvent(Block(KeepAlive)) == Event("message", []) && NoBoundary(Block(KeepAlive) + "\n")
  {
    var block := Block(KeepAlive);
    SplitWhole(block, '\n');
    assert ReadLine(Event("message", []), block) == Event("message", []);
    assert ReadLines(Event("message", []), [block]) == Event("message", []);
  }

  lemma RenderIsBlock(f: Frame)
    ensures RenderFrame(f) == Block(f) + "\n\n"
  {
    match f
    case LogFrame(payload) =>
      assert "event: log\ndata: " == "event: log\n" + "data: ";
    case ErrorFrame(quoted) =>
      assert "event: error\ndata: " == "event: error\n" + "data: ";
    case KeepAlive =>
  }

  lemma FrameParses(f: Frame)
    requires WellFormed(f)
    ensures NoBoundary(Block(f) + "\n")
    ensures f.LogFrame? ==> IsLog(Block(f)) && Data(Block(f)) == f.payload && !IsError(Block(f))
    ensures f.KeepAlive? ==> !IsLog(Block(f)) && !IsError(Block(f))
    ensures f.ErrorFrame? ==> IsError(Block(f)) && Data(Block(f)) == f.quoted
  {
    hide Block, ParseEvent, NoBoundary;
    match f
    case LogFrame(payload) => LogParses(payload);
    case ErrorFrame(quoted) => ErrorParses(quoted);
    case KeepAlive => KeepAliveParses();
  }

  // Whole streams

  /** What a stream of frames amounts to for the callback. */
  function Meaning(frames: seq<Frame>): Outcome
    decreases |frames|
  {
    if frames == [] then Outcome([], "", false, "")
    else match frames[0]
      case LogFrame(payload) => After([payload], Meaning(frames[1..]))
      case KeepAlive => Meaning(frames[1..])
      case ErrorFrame(quoted) => Outcome([], Render(frames[1..]), true, if |quoted| >= 2 then quoted[1..|quoted| - 1] else "")
  }

  ghost predicate AllWellFormed(frames: seq<Frame>) {
    forall f :: f in frames ==> WellFormed(f)
  }

  lemma RenderMeaningStep(f: Frame, rest: seq<Frame>)
    ensures Render([f] + rest) == RenderFrame(f) + Render(rest)
    ensures Meaning([f] + rest)
            == if f.LogFrame? then After([f.payload], Meaning(rest))
               else if f.KeepAlive? then Meaning(rest)
               else Outcome([], Render(rest), true, if |f.quoted| >= 2 then f.quoted[1..|f.quoted| - 1] else "")
  {
    assert ([f] + rest)[1..] == rest;
  }

  lemma QuotesStripped(f: Frame)
    requires WellFormed(f) && f.ErrorFrame?
    ensures StripQuotes(f.quoted) == f.quoted[1..|f.quoted| - 1] && |f.quoted| >= 2 && f.quoted != ""
  {}

  /** Printing frames and parsing them back are inverse. */
  lemma {:induction false} DrainOfRender(frames: seq<Frame>)
    requires AllWellFormed(frames)
    ensures Drain(Render(frames)) == Meaning(frames)
    decreases |frames|
  {
    hide Render, Meaning, Drain, WellFormed;
    if frames == [] {
      NothingDrains();
      return;
    }
    var f, rest := frames[0], frames[1..];
    assert frames == [f] + rest && f in frames && forall g :: g in rest ==> g in frames;
    DrainOfRender(rest);
    DrainFrame(f, rest);
  }

  lemma NothingDrains()
    ensures Drain(Render([])) == Meaning([])
  {}

  lemma DrainFrame(f: Frame, rest: seq<Frame>)
    requires WellFormed(f)
    requires Drain(Render(rest)) == Meaning(rest)
    ensures Drain(Render([f] + rest)) == Meaning([f] + rest)
  {
    hide *;
    FrameParses(f);
    RenderIsBlock(f);
    RenderMeaningStep(f, rest);
    DrainFirst(Block(f), Render(rest));
    if f.ErrorFrame? { QuotesStripped(f); }
  }

  /** ... whatever the chunks. */
  lemma PrintParse(frames: seq<Frame>, chunks: seq<string>)
    requires AllWellFormed(frames) && Concat(chunks) == Render(frames)
    ensures SameOutcome(Feed("", chunks), Meaning(frames))
  {
    ChunkingIrrelevant("", chunks);
    assert "" + Concat(chunks) == Concat(chunks);
    DrainOfRender(frames);
  }

  // The handler's loop

  datatype Tick = Poll(result: seq<LogEntry>) | Beat | Fail(quoted: string)

  /** The frames that one tick writes, given the ids emitted before. */
  function TickFrames(t: Tick, emitted: set<string>): seq<Frame> {
    match t
    case Poll(result) => LogFrames(NewEntries(result, emitted))
    case Beat => [KeepAlive]
    case Fail(quoted) => [ErrorFrame(quoted)]
  }

  function TickEmitted(t: Tick, emitted: set<string>): set<string> {
    if t.Poll? then emitted + Ids(NewEntries(t.result, emitted)) else emitted
  }

  /** The frames that the handler writes; a failed poll ends the stream. */
  function FramesFrom(ticks: seq<Tick>, emitted: set<string>): seq<Frame>
    decreases |ticks|
  {
    if ticks == [] then []
    else if ticks[0].Fail? then TickFrames(ticks[0], emitted)
    else TickFrames(ticks[0], emitted) + FramesFrom(ticks[1..], TickEmitted(ticks[0], emitted))
  }

  /** streamProjectLogsHandler after the initial listing has succeeded, until the request ends. */
  method StreamProjectLogs(initial: seq<LogEntry>, follow: bool, ticks: seq<Tick>) returns (output: string)
    ensures output == Render(FramesFrom([Poll(initial)] + if follow then ticks else [], {}))
  {
    var stream := new ProjectLogStream();
    stream.WriteProjectLogEvents(initial);
    FramesStep([Poll(initial)] + if follow then ticks else [], {});
    assert ([Poll(initial)] + ticks)[1..] == ticks && ([Poll(initial)] + [])[1..] == [];
    assert stream.output == Render(TickFrames(Poll(initial), {})) && Render(FramesFrom([], stream.emitted)) == "";
    if !follow { return stream.output; }
    hide *;
    Follow(stream, ticks);
    return stream.output;
  }

  /** The select loop. */
  method Follow(stream: ProjectLogStream, ticks: seq<Tick>)
    modifies stream
    ensures stream.output == old(stream.output) + Render(FramesFrom(ticks, old(stream.emitted)))
  {
    FollowedIsFrames(stream.output, stream.emitted, ticks);
    assert ticks[0..] == ticks;
    hide Render, FramesFrom, NewEntries, RenderFrame;
    var i := 0;
    while i < |ticks|
      invariant 0 <= i <= |ticks|
      invariant Followed(old(stream.output), old(stream.emitted), ticks) == Followed(stream.output, stream.emitted, ticks[i..])
    {
      assert ticks[i..][1..] == ticks[i + 1..];
      match ticks[i] {
        case Poll(result) => stream.WriteProjectLogEvents(result);
        case Beat => stream.Heartbeat();
        case Fail(quoted) =>
          stream.PollFailed(quoted);
          return;
      }
      i := i + 1;
    }
  }

  /** The output after following ticks, given the output and ids before. */
  function Followed(output: string, emitted: set<string>, ticks: seq<Tick>): string
    decreases |ticks|
  {
    if ticks == [] then output
    else match ticks[0]
      case Poll(result) =>
        var added := NewEntries(result, emitted);
        Followed(output + Render(LogFrames(added)), emitted + Ids(added), ticks[1..])
      case Beat => Followed(output + RenderFrame(KeepAlive), emitted, ticks[1..])
      case Fail(quoted) => output + RenderFrame(ErrorFrame(quoted))
  }

  lemma {:induction false} FollowedIsFrames(output: string, emitted: set<string>, ticks: seq<Tick>)
    ensures Followed(output, emitted, ticks) == output + Render(FramesFrom(ticks, emitted))
    decreases |ticks|
  {
    if ticks == [] {
      assert FramesFrom(ticks, emitted) == [] && Render([]) == "";
      return;
    }
    hide *;
    var t := ticks[0];
    var text, next := Render(TickFrames(t, emitted)), TickEmitted(t, emitted);
    FramesStep(ticks, emitted);
    FollowedStep(output, emitted, ticks);
    if !t.Fail? {
      FollowedIsFrames(output + text, next, ticks[1..]);
      ConcatAssociative(output, text, Render(FramesFrom(ticks[1..], next)));
    }
  }

  lemma FollowedStep(output: string, emitted: set<string>, ticks: seq<Tick>)
    requires ticks != []
    ensures var t := ticks[0];
            var after := output + Render(TickFrames(t, emitted));
            Followed(output, emitted, ticks) == if t.Fail? then after else Followed(after, TickEmitted(t, emitted), ticks[1..])
  {
    RenderSingle(KeepAlive);
    if ticks[0].Fail? { RenderSingle(ErrorFrame(ticks[0].quoted)); }
  }

  lemma ConcatAssociative<T>(a: seq<T>, b: seq<T>, c: seq<T>)
    ensures (a + b) + c == a + (b + c)
  {}

  lemma RenderNone(text: string)
    ensures Render([]) + text == text
  {}

  lemma {:induction false} RenderConcat(a: seq<Frame>, b: seq<Frame>)
    ensures Render(a + b) == Render(a) + Render(b)
    decreases |a|
  {
    hide *;
    if a == [] {
      assert a + b == b;
      RenderNone(Render(b));
    } else {
      var first, rest := a[0], a[1..];
      Uncons(a, b);
      RenderConcat(rest, b);
      RenderMeaningStep(first, rest);
      RenderMeaningStep(first, rest + b);
      ConcatAssociative(RenderFrame(first), Render(rest), Render(b));
    }
  }

  lemma FramesStep(ticks: seq<Tick>, emitted: set<string>)
    requires ticks != []
    ensures var t := ticks[0];
            && Render(FramesFrom(ticks, emitted))
               == Render(TickFrames(t, emitted)) + (if t.Fail? then "" else Render(FramesFrom(ticks[1..], TickEmitted(t, emitted))))
            && (t.Beat? ==> Render(TickFrames(t, emitted)) == RenderFrame(KeepAlive))
            && (t.Fail? ==> Render(TickFrames(t, emitted)) == RenderFrame(ErrorFrame(t.quoted)))
  {
    var t := ticks[0];
    RenderSingle(KeepAlive);
    if t.Fail? { RenderSingle(ErrorFrame(t.quoted)); }
    else { RenderConcat(TickFrames(t, emitted), FramesFrom(ticks[1..], TickEmitted(t, emitted))); }
  }

  lemma RenderSingle(f: Frame)
    ensures Render([f]) == RenderFrame(f)
  {
    assert Render([f]) == RenderFrame(f) + Render([f][1..]);
  }

  function PollResults(ticks: seq<Tick>): seq<seq<LogEntry>>
    decreases |ticks|
  {
    if ticks == [] then []
    else (if ticks[0].Poll? then [ticks[0].result] else []) + PollResults(ticks[1..])
  }

  function Payloads(entries: seq<LogEntry>): seq<string> {
    seq(|entries|, i requires 0 <= i < |entries| => Payload(entries[i]))
  }

  lemma {:induction false} MeaningOfLogs(entries: seq<LogEntry>, rest: seq<Frame>)
    ensures Meaning(LogFrames(entries) + rest) == After(Payloads(entries), Meaning(rest))
    decreases |entries|
  {
    hide *;
    if entries == [] {
      NoLogs(rest);
      return;
    }
    var first, later := entries[0], entries[1..];
    assert entries == [first] + later;
    LogsStep(first, later, rest);
    RenderMeaningStep(LogFrame(Payload(first)), LogFrames(later) + rest);
    MeaningOfLogs(later, rest);
    AfterTwice([Payload(first)], Payloads(later), Meaning(rest));
  }

  function Payload(e: LogEntry): string { if e.payload.Some? then e.payload.value else "" }

  lemma NoLogs(rest: seq<Frame>)
    ensures LogFrames([]) + rest == rest && After(Payloads([]), Meaning(rest)) == Meaning(rest)
  {
    assert Payloads([]) == [] && [] + Meaning(rest).delivered == Meaning(rest).delivered;
  }

  lemma LogsStep(first: LogEntry, later: seq<LogEntry>, rest: seq<Frame>)
    ensures LogFrames([first] + later) + rest == [LogFrame(Payload(first))] + (LogFrames(later) + rest)
    ensures Payloads([first] + later) == [Payload(first)] + Payloads(later)
  {}

  lemma AfterTwice(a: seq<string>, b: seq<string>, o: Outcome)
    ensures After(a, After(b, o)) == After(a + b, o)
  {
    assert a + (b + o.delivered) == (a + b) + o.delivered;
  }

  /** One poll, seen from both sides. */
  lemma PollMeaning(done: seq<seq<LogEntry>>, result: seq<LogEntry>, rest: seq<Frame>)
    ensures var now, ids := Emitted(done + [result]), Ids(Emitted(done));
            && Ids(now) == TickEmitted(Poll(result), ids)
            && Payloads(Emitted(done)) + Meaning(TickFrames(Poll(result), ids) + rest).delivered == Payloads(now) + Meaning(rest).delivered
            && Meaning(TickFrames(Poll(result), ids) + rest) == Meaning(rest).(delivered := Meaning(TickFrames(Poll(result), ids) + rest).delivered)
  {
    hide *;
    var before := Emitted(done);
    var added := NewEntries(result, Ids(before));
    EmittedNext(done, result);
    PollFrames(result, Ids(before));
    MeaningOfLogs(added, rest);
    PayloadsConcat(before, added);
    AfterDelivers(Payloads(added), Meaning(rest));
    ConcatAssociative(Payloads(before), Payloads(added), Meaning(rest).delivered);
  }

  lemma EmittedNext(done: seq<seq<LogEntry>>, result: seq<LogEntry>)
    ensures Emitted(done + [result]) == Emitted(done) + NewEntries(result, Ids(Emitted(done)))
  {
    assert (done + [result])[..|done|] == done;
  }

  lemma PollFrames(result: seq<LogEntry>, ids: set<string>)
    ensures TickFrames(Poll(result), ids) == LogFrames(NewEntries(result, ids))
    ensures TickEmitted(Poll(result), ids) == ids + Ids(NewEntries(result, ids))
  {}

  lemma PayloadsConcat(a: seq<LogEntry>, b: seq<LogEntry>)
    ensures Payloads(a + b) == Payloads(a) + Payloads(b)
    ensures Ids(a + b) == Ids(a) + Ids(b)
  {}

  lemma AfterDelivers(ds: seq<string>, o: Outcome)
    ensures After(ds, o) == o.(delivered := ds + o.delivered)
  {}

  lemma BeatMeaning(ids: set<string>, rest: seq<Frame>)
    ensures Meaning(TickFrames(Beat, ids) + rest) == Meaning(rest)
  {
    assert (TickFrames(Beat, ids) + rest)[1..] == rest;
  }

  lemma PollResultsStep(ticks: seq<Tick>, done: seq<seq<LogEntry>>)
    requires ticks != []
    ensures done + PollResults(ticks)
            == if ticks[0].Poll? then (done + [ticks[0].result]) + PollResults(ticks[1..]) else done + PollResults(ticks[1..])
  {
    var later := PollResults(ticks[1..]);
    hide PollResults;
    if ticks[0].Poll? {
      assert PollResults(ticks) == [ticks[0].result] + later by { PollResultsUnfold(ticks); }
      assert done + ([ticks[0].result] + later) == (done + [ticks[0].result]) + later;
    } else {
      PollResultsUnfold(ticks);
    }
  }

  lemma PollResultsUnfold(ticks: seq<Tick>)
    requires ticks != []
    ensures PollResults(ticks) == if ticks[0].Poll? then [ticks[0].result] + PollResults(ticks[1..]) else PollResults(ticks[1..])
  {
    assert [] + PollResults(ticks[1..]) == PollResults(ticks[1..]);
  }

  /** The frames written by a run without errors carry what the polls emit, in order. */
  lemma {:induction false} MeaningOfRun(done: seq<seq<LogEntry>>, ticks: seq<Tick>)
    requires forall t :: t in ticks ==> !t.Fail?
    ensures var o := Meaning(FramesFrom(ticks, Ids(Emitted(done))));
            && Payloads(Emitted(done + PollResults(ticks))) == Payloads(Emitted(done)) + o.delivered
            && !o.thrown && o.rest == "" && o.message == ""
    decreases |ticks|
  {
    if ticks == [] {
      assert done + [] == done;
      return;
    }
    var t, rest := ticks[0], ticks[1..];
    assert t in ticks && forall u :: u in rest ==> u in ticks;
    PollResultsStep(ticks, done);
    var ids := Ids(Emitted(done));
    assert FramesFrom(ticks, ids) == TickFrames(t, ids) + FramesFrom(rest, TickEmitted(t, ids));
    assert t.Beat? ==> TickEmitted(t, ids) == ids;
    hide Meaning, FramesFrom, Emitted, TickFrames, TickEmitted, PollResults, Payloads, Ids;
    if t.Poll? {
      PollMeaning(done, t.result, FramesFrom(rest, TickEmitted(t, ids)));
      MeaningOfRun(done + [t.result], rest);
    } else {
      BeatMeaning(ids, FramesFrom(rest, ids));
      MeaningOfRun(done, rest);
    }
  }

  /** A payload that json.Marshal could have printed. */
  ghost predicate JsonPayloads(results: seq<seq<LogEntry>>) {
    forall r, e :: r in results && e in r && e.payload.Some? ==> WellFormed(LogFrame(e.payload.value))
  }

  lemma {:induction false} RunWellFormed(ticks: seq<Tick>, emitted: set<string>)
    requires forall t :: t in ticks ==> !t.Fail?
    requires JsonPayloads(PollResults(ticks))
    ensures AllWellFormed(FramesFrom(ticks, emitted))
    decreases |ticks|
  {
    if ticks == [] { return; }
    var t, rest := ticks[0], ticks[1..];
    assert t in ticks && forall u :: u in rest ==> u in ticks;
    assert forall r :: r in PollResults(rest) ==> r in PollResults(ticks);
    if t.Poll? {
      var added := NewEntries(t.result, emitted);
      assert t.result in PollResults(ticks);
      NewEntriesFresh(t.result, emitted);
      forall f | f in LogFrames(added) ensures WellFormed(f) {
        var i :| 0 <= i < |added| && f == LogFrames(added)[i];
        assert added[i] in added;
      }
      RunWellFormed(rest, TickEmitted(t, emitted));
    } else {
      RunWellFormed(rest, emitted);
    }
  }

  /** End to end: over an append-only log whose polls see at most 100 new entries each, and
      whatever the chunks, the browser's callback gets the entries of the first window and
      then every later entry, each once and in the order of the log. */
  lemma ExactlyOnceDelivery(logs: seq<seq<LogEntry>>, ticks: seq<Tick>, chunks: seq<string>)
    requires AppendOnly(logs) && logs != []
    requires forall i :: 1 <= i < |logs| ==> |logs[i]| - |logs[i - 1]| <= 100
    requires forall t :: t in ticks ==> !t.Fail?
    requires PollResults(ticks) == Results(logs) && JsonPayloads(PollResults(ticks))
    requires Concat(chunks) == Render(FramesFrom(ticks, {}))
    ensures var o := Feed("", chunks);
            && o.delivered == Payloads(Marshalable(logs[|logs| - 1][WindowStart(logs[0])..]))
            && !o.thrown && o.rest == ""
  {
    hide *;
    RunWellFormed(ticks, {});
    PrintParse(FramesFrom(ticks, {}), chunks);
    NothingEmitted();
    MeaningOfRun([], ticks);
    ResultsWhole(logs);
    StreamIsLog(logs, |logs| - 1);
    Delivered(Feed("", chunks), Meaning(FramesFrom(ticks, {})), Payloads(Emitted(Results(logs))));
  }

  lemma NothingEmitted()
    ensures Ids([]) == {} && Emitted([]) == [] && Payloads([]) == []
  {}

  lemma ResultsWhole(logs: seq<seq<LogEntry>>)
    ensures [] + Results(logs) == Results(logs)[..|logs|] == Results(logs)
  {}

  lemma Delivered(o: Outcome, meaning: Outcome, payloads: seq<string>)
    requires SameOutcome(o, meaning) && [] + meaning.delivered == payloads && !meaning.thrown && meaning.rest == ""
    ensures o.delivered == payloads && !o.thrown && o.rest == ""
  {}
}
