/** What an event block says to the browser (frontend/src/api.ts), line by line, for blocks of any
    shape: data over several lines, either line ending, comments, unknown and repeated fields. */
module EventLaws {
  import opened Text
  import opened EventStream

  predicate NoNewlines(lines: seq<string>) { forall l :: l in lines ==> '\n' !in l }

  // Lines

  lemma SplitJoined(lines: seq<string>)
    requires lines != [] && NoNewlines(lines)
    ensures Split(Join(lines, "\n"), '\n') == lines
  {
    SplitJoin(lines, '\n');
    assert "\n" == ['\n'];
  }

  /** The parts between newlines when each line but the last ends with a carriage return. */
  function Returned(lines: seq<string>): seq<string> {
    if |lines| <= 1 then lines else [lines[0] + "\r"] + Returned(lines[1..])
  }

  lemma ReturnedStep(first: string, rest: seq<string>)
    requires rest != []
    ensures Returned([first] + rest) == [first + "\r"] + Returned(rest) && Returned([first]) == [first]
  {
    assert ([first] + rest)[1..] == rest;
  }

  lemma JoinStep(first: string, rest: seq<string>, sep: string)
    requires rest != []
    ensures Join([first] + rest, sep) == first + sep + Join(rest, sep) && Join([first], sep) == first
  {
    assert ([first] + rest)[1..] == rest;
  }

  lemma DropStep(first: string, rest: seq<string>)
    requires rest != []
    ensures DropReturns([first + "\r"] + rest) == [first] + DropReturns(rest)
    ensures DropReturns([first]) == [first]
  {
    assert ([first + "\r"] + rest)[1..] == rest;
    assert (first + "\r")[..|first + "\r"| - 1] == first;
  }

  lemma ReturnRegroup(a: string, b: string)
    ensures a + "\r\n" + b == (a + "\r") + "\n" + b
  {
    assert "\r\n" == "\r" + "\n";
  }

  lemma ReturnInside(first: string)
    requires '\n' !in first
    ensures '\n' !in first + "\r"
  {}

  lemma {:induction false} ReturnedText(lines: seq<string>)
    requires lines != [] && NoNewlines(lines)
    ensures Join(lines, "\r\n") == Join(Returned(lines), "\n") && Returned(lines) != [] && NoNewlines(Returned(lines))
    ensures DropReturns(Returned(lines)) == lines
  {
    var first, rest := lines[0], lines[1..];
    assert lines == [first] + rest && first in lines && forall l :: l in rest ==> l in lines;
    hide Join, Returned, DropReturns;
    if rest == [] {
      assert lines == [first];
      ReturnedStep(first, [""]);
      JoinStep(first, [""], "\n");
      JoinStep(first, [""], "\r\n");
      DropStep(first, [""]);
    } else {
      ReturnedText(rest);
      ReturnedStep(first, rest);
      JoinStep(first, rest, "\r\n");
      JoinStep(first + "\r", Returned(rest), "\n");
      DropStep(first, Returned(rest));
      ReturnRegroup(first, Join(rest, "\r\n"));
      ReturnInside(first);
      assert forall l :: l in [first + "\r"] + Returned(rest) ==> l == first + "\r" || l in Returned(rest);
    }
  }

  /** Lines ended with a carriage return and a newline are read as the same lines. */
  lemma EitherLineEnding(lines: seq<string>)
    requires lines != [] && NoNewlines(lines)
    ensures SplitLines(Join(lines, "\r\n")) == lines
    ensures (forall l :: l in lines ==> '\r' !in l) ==> SplitLines(Join(lines, "\n")) == lines
  {
    ReturnedText(lines);
    SplitJoined(Returned(lines));
    SplitJoined(lines);
    hide Join, Split, Returned;
    if forall l :: l in lines ==> '\r' !in l { NothingToDrop(lines); }
  }

  lemma {:induction false} NothingToDrop(lines: seq<string>)
    requires forall l :: l in lines ==> '\r' !in l
    ensures DropReturns(lines) == lines
  {
    if |lines| > 1 {
      var first := lines[0];
      assert first in lines && (first != "" ==> first[|first| - 1] in first);
      NothingToDrop(lines[1..]);
      assert lines == [first] + lines[1..];
    }
  }

  // Fields

  lemma NotPrefix(a: string, s: string)
    requires a != "" && s != "" && a[0] != s[0]
    ensures !(a <= s)
  {}

  lemma {:induction false} ReadConcat(e: Event, a: seq<string>, b: seq<string>)
    ensures ReadLines(e, a + b) == ReadLines(ReadLines(e, a), b)
    decreases |a|
  {
    hide ReadLine;
    if a == [] {
      assert a + b == b;
    } else {
      assert (a + b)[1..] == a[1..] + b && (a + b)[0] == a[0];
      ReadConcat(ReadLine(e, a[0]), a[1..], b);
    }
  }

  lemma ReadOne(e: Event, line: string)
    ensures ReadLines(e, [line]) == ReadLine(e, line)
  {
    assert [line][1..] == [];
    hide ReadLine;
  }

  /** A comment or a field of another name, wherever it stands, changes nothing. */
  lemma OtherLinesIgnored(before: seq<string>, line: string, after: seq<string>)
    requires ":" <= line || (!("event:" <= line) && !("data:" <= line))
    ensures var start := Event("message", []);
            ReadLines(start, before + [line] + after) == ReadLines(start, before + after)
  {
    var start := Event("message", []);
    var e := ReadLines(start, before);
    assert ReadLine(e, line) == e;
    hide ReadLine, ReadLines;
    ReadConcat(start, before + [line], after);
    ReadConcat(start, before, [line]);
    ReadConcat(start, before, after);
    ReadOne(e, line);
  }

  /** Of several event fields the last one counts, without the white space around its value; data
      fields do not touch it. */
  lemma LastEventCounts(before: seq<string>, name: string, after: seq<string>)
    requires forall l :: l in after ==> !("event:" <= l)
    ensures ReadLines(Event("message", []), before + ["event:" + name] + after).event == Trim(name)
  {
    var start := Event("message", []);
    var e := ReadLines(start, before);
    var line := "event:" + name;
    NotPrefix(":", line);
    assert EVENT <= line && line[|EVENT|..] == name;
    assert ReadLine(e, line).event == Trim(name);
    hide ReadLine, ReadLines, Trim;
    ReadConcat(start, before + [line], after);
    ReadConcat(start, before, [line]);
    ReadOne(e, line);
    EventKept(ReadLine(e, line), after);
  }

  lemma {:induction false} EventKept(e: Event, lines: seq<string>)
    requires forall l :: l in lines ==> !("event:" <= l)
    ensures ReadLines(e, lines).event == e.event
    decreases |lines|
  {
    if lines == [] { return; }
    assert lines[0] in lines && forall l :: l in lines[1..] ==> l in lines;
    assert ReadLine(e, lines[0]).event == e.event;
    hide ReadLine;
    EventKept(ReadLine(e, lines[0]), lines[1..]);
  }

  function DataLines(lines: seq<string>): seq<string> {
    seq(|lines|, i requires 0 <= i < |lines| => "data: " + lines[i])
  }

  function Shifted(lines: seq<string>): seq<string> {
    seq(|lines|, i requires 0 <= i < |lines| => TrimStart(lines[i]))
  }

  lemma DataLinesStep(init: seq<string>, last: string)
    ensures DataLines(init + [last]) == DataLines(init) + ["data: " + last]
    ensures Shifted(init + [last]) == Shifted(init) + [TrimStart(last)]
    ensures DataLines([]) == [] && Shifted([]) == []
  {
    hide TrimStart;
  }

  lemma OneDataLine(e: Event, line: string)
    ensures ReadLine(e, "data: " + line) == e.(data := e.data + [TrimStart(line)])
  {
    var text := "data: " + line;
    NotPrefix(":", text);
    NotPrefix(EVENT, text);
    assert DATA <= text;
    assert text[|DATA|..] == " " + line && (" " + line)[1..] == line;
  }

  lemma NoLines(e: Event)
    ensures ReadLines(e, []) == e && e.(data := e.data + []) == e
  {}

  lemma Appended(e: Event, a: seq<string>, b: seq<string>)
    ensures e.(data := e.data + a).(data := e.(data := e.data + a).data + b) == e.(data := e.data + (a + b))
  {}

  lemma {:induction false} DataRead(e: Event, lines: seq<string>)
    ensures ReadLines(e, DataLines(lines)) == e.(data := e.data + Shifted(lines))
  {
    hide *;
    DataLinesStep([], "");
    if lines == [] {
      NoLines(e);
      return;
    }
    var init, last := lines[..|lines| - 1], lines[|lines| - 1];
    assert lines == init + [last];
    DataRead(e, init);
    DataLinesStep(init, last);
    ReadConcat(e, DataLines(init), ["data: " + last]);
    var read := e.(data := e.data + Shifted(init));
    ReadOne(read, "data: " + last);
    OneDataLine(read, last);
    Appended(e, Shifted(init), [TrimStart(last)]);
  }

  lemma BlockLines(lines: seq<string>)
    requires lines != [] && NoNewlines(lines) && forall l :: l in lines ==> '\r' !in l
    ensures ParseEvent(Join(lines, "\n")) == ReadLines(Event("message", []), lines)
    ensures ParseEvent(Join(lines, "\r\n")) == ReadLines(Event("message", []), lines)
  {
    EitherLineEnding(lines);
  }

  predicate Plain(line: string) { '\n' !in line && '\r' !in line }

  lemma FieldsPlain(name: string, lines: seq<string>)
    requires Plain(name) && forall l :: l in lines ==> Plain(l)
    ensures var all := ["event:" + name] + DataLines(lines); forall l :: l in all ==> Plain(l)
  {
    forall l | l in DataLines(lines) ensures Plain(l) {
      var i :| 0 <= i < |lines| && DataLines(lines)[i] == l;
      assert lines[i] in lines && l == "data: " + lines[i];
    }
  }

  /** An event whose data goes over several lines, with either line ending: every line comes back, in
      order, without the white space it starts with, and so unchanged exactly if it starts with none. */
  lemma DataOverLines(name: string, lines: seq<string>)
    requires Plain(name) && lines != [] && forall l :: l in lines ==> Plain(l)
    ensures var all := ["event:" + name] + DataLines(lines);
            && ParseEvent(Join(all, "\n")) == ParseEvent(Join(all, "\r\n")) == Event(Trim(name), Shifted(lines))
            && (Shifted(lines) == lines <==> forall l :: l in lines ==> l == "" || !JsSpace(l[0]))
  {
    var all, start := ["event:" + name] + DataLines(lines), Event("message", []);
    FieldsPlain(name, lines);
    ShiftedIff(lines);
    OneEventLine(start, name);
    hide *;
    AllPlain(all);
    BlockLines(all);
    ReadConcat(start, ["event:" + name], DataLines(lines));
    ReadOne(start, "event:" + name);
    DataRead(ReadLine(start, "event:" + name), lines);
    NothingBefore(Shifted(lines));
  }

  lemma NothingBefore<T>(xs: seq<T>)
    ensures [] + xs == xs
  {}

  lemma AllPlain(lines: seq<string>)
    requires forall l :: l in lines ==> Plain(l)
    ensures NoNewlines(lines) && forall l :: l in lines ==> '\r' !in l
  {}

  lemma OneEventLine(e: Event, name: string)
    ensures ReadLine(e, "event:" + name) == e.(event := Trim(name))
  {
    var line := "event:" + name;
    NotPrefix(":", line);
    assert EVENT <= line && line[|EVENT|..] == name;
  }

  lemma TrimStartSame(line: string)
    ensures TrimStart(line) == line <==> line == "" || !JsSpace(line[0])
  {
    if line != "" && JsSpace(line[0]) { TrimStartShorter(line[1..]); }
  }

  lemma {:induction false} TrimStartShorter(line: string)
    ensures |TrimStart(line)| <= |line|
  {
    if line != "" && JsSpace(line[0]) { TrimStartShorter(line[1..]); }
  }

  lemma ShiftedIff(lines: seq<string>)
    ensures Shifted(lines) == lines <==> forall l :: l in lines ==> l == "" || !JsSpace(l[0])
  {
    hide TrimStart, JsSpace;
    forall i | 0 <= i < |lines| ensures TrimStart(lines[i]) == lines[i] <==> lines[i] == "" || !JsSpace(lines[i][0]) {
      TrimStartSame(lines[i]);
    }
    if Shifted(lines) == lines {
      forall l | l in lines ensures l == "" || !JsSpace(l[0]) {
        var i :| 0 <= i < |lines| && lines[i] == l;
        assert Shifted(lines)[i] == TrimStart(lines[i]);
      }
    } else {
      var i :| 0 <= i < |lines| && Shifted(lines)[i] != lines[i];
      assert lines[i] in lines;
    }
  }

  /** A block without data is neither a log entry nor an error; with data, its name decides. */
  lemma NameDecides(block: string)
    ensures Data(block) == "" ==> !IsLog(block) && !IsError(block)
    ensures Data(block) != "" ==> (IsLog(block) <==> ParseEvent(block).event == "log")
    ensures Data(block) != "" ==> (IsError(block) <==> ParseEvent(block).event == "error")
  {}
}
