/** The text of a failed poll: printed with Go's %q by the server
    (internal/api/project_log_activity_handlers.go), stripped of the outer quotes by the browser
    (frontend/src/api.ts). */
module ErrorText {
  import opened LogServer
  import opened EventStream
  import opened LogDelivery

  // strconv.Quote

  /** Which characters beyond ASCII Go prints as they are. */
  type Printable = char -> bool

  /** The characters that are not escaped. */
  predicate Kept(printable: Printable, c: char) {
    c != '"' && c != '\\' && if c as int < 0x80 then ' ' <= c <= '~' else printable(c)
  }

  const HEX := "0123456789abcdef"

  function Hex(n: nat, width: nat): (s: string)
    ensures |s| == width && forall c :: c in s ==> c in HEX
  {
    if width == 0 then "" else Hex(n / 16, width - 1) + [HEX[n % 16]]
  }

  function Escape(c: char): string {
    var n := c as int;
    if c == '"' then "\\\""
    else if c == '\\' then "\\\\"
    else if n == 7 then "\\a"
    else if n == 8 then "\\b"
    else if n == 9 then "\\t"
    else if n == 10 then "\\n"
    else if n == 11 then "\\v"
    else if n == 12 then "\\f"
    else if n == 13 then "\\r"
    else if n < 32 || n == 0x7F then "\\x" + Hex(n, 2)
    else if n < 0x10000 then "\\u" + Hex(n, 4)
    else "\\U" + Hex(n, 8)
  }

  function Escaped(printable: Printable, text: string): string {
    if text == "" then ""
    else (if Kept(printable, text[0]) then [text[0]] else Escape(text[0])) + Escaped(printable, text[1..])
  }

  function Quoted(printable: Printable, text: string): string {
    "\"" + Escaped(printable, text) + "\""
  }

  lemma EscapeFacts(c: char)
    ensures |Escape(c)| >= 2 && OneLine(Escape(c))
  {
    assert '\n' !in HEX && '\r' !in HEX;
    hide Hex;
  }

  lemma {:induction false} EscapedOneLine(printable: Printable, text: string)
    ensures OneLine(Escaped(printable, text))
  {
    if text == "" { return; }
    hide Escape;
    EscapeFacts(text[0]);
    EscapedOneLine(printable, text[1..]);
  }

  ghost predicate AllKept(printable: Printable, text: string) {
    forall c :: c in text ==> Kept(printable, c)
  }

  lemma AllKeptStep(printable: Printable, c: char, rest: string)
    ensures AllKept(printable, [c] + rest) <==> Kept(printable, c) && AllKept(printable, rest)
  {
    assert forall d :: d in [c] + rest <==> d == c || d in rest;
    hide Kept;
  }

  /** Escaping makes a text longer, or leaves it as it is. */
  lemma {:induction false} EscapedLength(printable: Printable, text: string)
    ensures |Escaped(printable, text)| >= |text|
    ensures |Escaped(printable, text)| == |text| <==> AllKept(printable, text)
    ensures AllKept(printable, text) ==> Escaped(printable, text) == text
  {
    if text == "" { return; }
    hide Escape, Kept, AllKept;
    var c, rest := text[0], text[1..];
    assert text == [c] + rest;
    EscapeFacts(c);
    AllKeptStep(printable, c, rest);
    EscapedLength(printable, rest);
  }

  lemma QuotedWellFormed(printable: Printable, text: string)
    ensures var quoted := Quoted(printable, text);
            WellFormed(ErrorFrame(quoted)) && quoted[1..|quoted| - 1] == Escaped(printable, text)
  {
    hide Escaped;
    EscapedOneLine(printable, text);
  }

  // End to end

  lemma {:induction false} MeaningThenError(frames: seq<Frame>, quoted: string)
    requires forall f :: f in frames ==> !f.ErrorFrame?
    requires |quoted| >= 2
    ensures Meaning(frames + [ErrorFrame(quoted)])
            == Outcome(Meaning(frames).delivered, "", true, quoted[1..|quoted| - 1])
    decreases |frames|
  {
    if frames == [] {
      assert [] + [ErrorFrame(quoted)] == [ErrorFrame(quoted)] && Render([ErrorFrame(quoted)][1..]) == "";
      return;
    }
    var f, rest := frames[0], frames[1..];
    assert f in frames && forall g :: g in rest ==> g in frames;
    assert frames == [f] + rest && frames + [ErrorFrame(quoted)] == [f] + (rest + [ErrorFrame(quoted)]);
    hide Meaning, Render;
    MeaningThenError(rest, quoted);
    RenderMeaningStep(f, rest);
    RenderMeaningStep(f, rest + [ErrorFrame(quoted)]);
  }

  lemma {:induction false} FramesThenError(ticks: seq<Tick>, emitted: set<string>, quoted: string)
    requires forall t :: t in ticks ==> !t.Fail?
    ensures FramesFrom(ticks + [Fail(quoted)], emitted) == FramesFrom(ticks, emitted) + [ErrorFrame(quoted)]
    ensures forall f :: f in FramesFrom(ticks, emitted) ==> !f.ErrorFrame?
    decreases |ticks|
  {
    if ticks == [] {
      assert [] + [Fail(quoted)] == [Fail(quoted)];
      return;
    }
    var t, rest := ticks[0], ticks[1..];
    assert t in ticks && forall u :: u in rest ==> u in ticks;
    assert (ticks + [Fail(quoted)])[1..] == rest + [Fail(quoted)];
    FramesThenError(rest, TickEmitted(t, emitted), quoted);
    hide NewEntries;
  }

  /** A failed poll ends the stream: the browser's callback has got what the polls before emitted,
      and the browser throws the error's text as %q escapes it. That is the text itself exactly if
      nothing in it is escaped: no quote, no backslash, no control or unprintable character. */
  lemma ErrorDelivered(printable: Printable, ticks: seq<Tick>, error: string, chunks: seq<string>)
    requires forall t :: t in ticks ==> !t.Fail?
    requires JsonPayloads(PollResults(ticks))
    requires Concat(chunks) == Render(FramesFrom(ticks + [Fail(Quoted(printable, error))], {}))
    ensures var o := Feed("", chunks);
            && o.thrown && o.delivered == Payloads(Emitted(PollResults(ticks)))
            && o.message == Escaped(printable, error)
            && (o.message == error <==> AllKept(printable, error))
  {
    hide *;
    var quoted := Quoted(printable, error);
    var frames := FramesFrom(ticks, {});
    QuotedWellFormed(printable, error);
    EscapedLength(printable, error);
    FramesThenError(ticks, {}, quoted);
    RunWellFormed(ticks, {});
    OneMoreWellFormed(frames, ErrorFrame(quoted));
    PrintParse(frames + [ErrorFrame(quoted)], chunks);
    LongEnough(printable, error);
    MeaningThenError(frames, quoted);
    NothingEmitted();
    MeaningOfRun([], ticks);
    NothingFirst(PollResults(ticks));
    NothingFirst(Meaning(frames).delivered);
    Thrown(Feed("", chunks), Meaning(frames + [ErrorFrame(quoted)]), Payloads(Emitted(PollResults(ticks))));
  }

  lemma NothingFirst<T>(xs: seq<T>)
    ensures [] + xs == xs
  {}

  lemma LongEnough(printable: Printable, text: string)
    ensures |Quoted(printable, text)| >= 2
  {}

  lemma OneMoreWellFormed(frames: seq<Frame>, f: Frame)
    requires AllWellFormed(frames) && WellFormed(f)
    ensures AllWellFormed(frames + [f])
  {}

  lemma Thrown(o: Outcome, meaning: Outcome, payloads: seq<string>)
    requires SameOutcome(o, meaning) && meaning.thrown && meaning.delivered == payloads
    ensures o.thrown && o.message == meaning.message && o.delivered == payloads
  {}
}
