/** The project log stream's server side (internal/api/project_log_activity_handlers.go):
    each poll fetches the newest 100 entries, newest first, and the entries not yet
    emitted are written oldest first. */
module LogServer {

  const POLL_LIMIT := 100

  import opened Wrappers

  /** A log entry; `payload` is its JSON text, or None when marshalling fails. */
  datatype LogEntry = LogEntry(id: string, payload: Option<string>)

  /** One block of the event stream. */
  datatype Frame = LogFrame(payload: string) | KeepAlive | ErrorFrame(quoted: string)

  function RenderFrame(f: Frame): string {
    match f
    case LogFrame(payload) => "event: log\ndata: " + payload + "\n\n"
    case KeepAlive => ": keepalive\n\n"
    case ErrorFrame(quoted) => "event: error\ndata: " + quoted + "\n\n"
  }

  function Render(frames: seq<Frame>): string {
    if frames == [] then "" else RenderFrame(frames[0]) + Render(frames[1..])
  }

  /** The entries that one poll result adds, given the ids emitted before. */
  function NewEntries(logs: seq<LogEntry>, emitted: set<string>): seq<LogEntry> {
    if logs == [] then []
    else
      var older, entry := logs[..|logs| - 1], logs[|logs| - 1];
      if entry.id in emitted || entry.payload.None? then NewEntries(older, emitted)
      else [entry] + NewEntries(older, emitted + {entry.id})
  }

  function Ids(entries: seq<LogEntry>): set<string> { set e | e in entries :: e.id }

  function LogFrames(entries: seq<LogEntry>): seq<Frame> {
    seq(|entries|, i requires 0 <= i < |entries| =>
      LogFrame(if entries[i].payload.Some? then entries[i].payload.value else ""))
  }

  class ProjectLogStream {
    var emitted: set<string>
    var output: string

    constructor ()
      ensures emitted == {} && output == ""
    {
      emitted, output := {}, "";
    }

    method WriteProjectLogEvents(logs: seq<LogEntry>)
      modifies this
      ensures output == old(output) + Render(LogFrames(NewEntries(logs, old(emitted))))
      ensures emitted == old(emitted) + Ids(NewEntries(logs, old(emitted)))
    {
      hide Render, RenderFrame, NewEntries, Written, LogFrames, Ids;
      var i := |logs| - 1;
      assert logs[..i + 1] == logs;
      while i >= 0
        invariant -1 <= i < |logs|
        invariant Written(old(output), old(emitted), logs) == Written(output, emitted, logs[..i + 1])
      {
        var logEntry := logs[i];
        WrittenStep(output, emitted, logs, i);
        if logEntry.id !in emitted && logEntry.payload.Some? {
          WriteLog(logEntry.payload.value);
          emitted := emitted + {logEntry.id};
        }
        i := i - 1;
      }
      WrittenNone(output, emitted, logs);
      WrittenIsNewEntries(old(output), old(emitted), logs);
    }

    method WriteLog(payload: string)
      modifies this`output
      ensures output == old(output) + RenderFrame(LogFrame(payload))
    {
      output := output + ("event: log\ndata: " + payload + "\n\n");
    }

    method Heartbeat()
      modifies this
      ensures output == old(output) + RenderFrame(KeepAlive) && emitted == old(emitted)
    {
      output := output + ": keepalive\n\n";
    }

    method PollFailed(quoted: string)
      modifies this
      ensures output == old(output) + RenderFrame(ErrorFrame(quoted)) && emitted == old(emitted)
    {
      output := output + ("event: error\ndata: " + quoted + "\n\n");
    }
  }

  /** Output and emitted ids after the entries of `logs` have been offered from the last to the first. */
  function Written(output: string, emitted: set<string>, logs: seq<LogEntry>): (string, set<string>)
    decreases |logs|
  {
    if logs == [] then (output, emitted)
    else
      var older, entry := logs[..|logs| - 1], logs[|logs| - 1];
      if entry.id in emitted || entry.payload.None? then Written(output, emitted, older)
      else Written(output + RenderFrame(LogFrame(entry.payload.value)), emitted + {entry.id}, older)
  }

  lemma WrittenNone(output: string, emitted: set<string>, logs: seq<LogEntry>)
    ensures Written(output, emitted, logs[..0]) == (output, emitted)
  {}

  lemma WrittenStep(output: string, emitted: set<string>, logs: seq<LogEntry>, i: nat)
    requires i < |logs|
    ensures var entry := logs[i];
            Written(output, emitted, logs[..i + 1])
            == if entry.id in emitted || entry.payload.None? then Written(output, emitted, logs[..i])
               else Written(output + RenderFrame(LogFrame(entry.payload.value)), emitted + {entry.id}, logs[..i])
  {
    assert logs[..i + 1][..i] == logs[..i];
  }

  lemma NewStep(older: seq<LogEntry>, entry: LogEntry, emitted: set<string>)
    ensures NewEntries(older + [entry], emitted)
            == if entry.id in emitted || entry.payload.None? then NewEntries(older, emitted)
               else [entry] + NewEntries(older, emitted + {entry.id})
  {
    assert (older + [entry])[..|older|] == older;
  }

  lemma NothingNew(output: string, emitted: set<string>)
    ensures Written(output, emitted, []) == (output + Render(LogFrames(NewEntries([], emitted))), emitted + Ids(NewEntries([], emitted)))
  {
    assert LogFrames([]) == [] && Ids([]) == {};
    assert output + "" == output && emitted + {} == emitted;
  }

  lemma Regrouped(output: string, block: string, text: string, emitted: set<string>, id: string, ids: set<string>)
    ensures output + (block + text) == (output + block) + text
    ensures emitted + ({id} + ids) == (emitted + {id}) + ids
  {}

  lemma {:induction false} WrittenIsNewEntries(output: string, emitted: set<string>, logs: seq<LogEntry>)
    ensures var added := NewEntries(logs, emitted);
            Written(output, emitted, logs) == (output + Render(LogFrames(added)), emitted + Ids(added))
    decreases |logs|
  {
    hide *;
    if logs == [] {
      NothingNew(output, emitted);
      return;
    }
    var older, entry := logs[..|logs| - 1], logs[|logs| - 1];
    assert logs == older + [entry] && logs[..|older| + 1] == logs;
    WrittenStep(output, emitted, logs, |older|);
    NewStep(older, entry, emitted);
    if entry.id in emitted || entry.payload.None? {
      WrittenIsNewEntries(output, emitted, older);
    } else {
      var block, rest := RenderFrame(LogFrame(entry.payload.value)), NewEntries(older, emitted + {entry.id});
      WrittenIsNewEntries(output + block, emitted + {entry.id}, older);
      RenderFirst(entry, rest);
      Regrouped(output, block, Render(LogFrames(rest)), emitted, entry.id, Ids(rest));
    }
  }

  lemma RenderFirst(entry: LogEntry, rest: seq<LogEntry>)
    requires entry.payload.Some?
    ensures Render(LogFrames([entry] + rest)) == RenderFrame(LogFrame(entry.payload.value)) + Render(LogFrames(rest))
    ensures Ids([entry] + rest) == {entry.id} + Ids(rest)
  {
    assert LogFrames([entry] + rest) == [LogFrame(entry.payload.value)] + LogFrames(rest);
  }

  // Polls over an append-only log

  function Reverse(entries: seq<LogEntry>): (r: seq<LogEntry>)
    ensures |r| == |entries|
  {
    if entries == [] then [] else Reverse(entries[1..]) + [entries[0]]
  }

  /** Where the window of the newest entries starts. */
  function WindowStart(log: seq<LogEntry>): (start: nat)
    ensures start <= |log|
  {
    if |log| > POLL_LIMIT then |log| - POLL_LIMIT else 0
  }

  /** What a poll returns: the newest entries, newest first. */
  function Newest(log: seq<LogEntry>): seq<LogEntry> {
    Reverse(log[WindowStart(log)..])
  }

  /** Everything emitted by the polls that returned `results`, in order. */
  function Emitted(results: seq<seq<LogEntry>>): seq<LogEntry> {
    if results == [] then []
    else
      var before := Emitted(results[..|results| - 1]);
      before + NewEntries(results[|results| - 1], Ids(before))
  }

  predicate DistinctIds(entries: seq<LogEntry>) {
    forall i, j :: 0 <= i < j < |entries| ==> entries[i].id != entries[j].id
  }

  lemma {:induction false} NewEntriesFresh(logs: seq<LogEntry>, emitted: set<string>)
    ensures DistinctIds(NewEntries(logs, emitted))
    ensures forall e :: e in NewEntries(logs, emitted) ==> e.id !in emitted && e in logs && e.payload.Some?
  {
    if logs == [] { return; }
    var entry, older := logs[|logs| - 1], logs[..|logs| - 1];
    assert logs == older + [entry];
    hide NewEntries;
    NewStep(older, entry, emitted);
    if entry.id in emitted || entry.payload.None? {
      NewEntriesFresh(older, emitted);
    } else {
      NewEntriesFresh(older, emitted + {entry.id});
      var rest := NewEntries(older, emitted + {entry.id});
      forall i | 0 <= i < |rest| ensures rest[i].id != entry.id { assert rest[i] in rest; }
    }
  }

  /** The stream never repeats an id, whatever the polls return. */
  lemma {:induction false} NeverRepeats(results: seq<seq<LogEntry>>)
    ensures DistinctIds(Emitted(results))
  {
    if results == [] { return; }
    var before := Emitted(results[..|results| - 1]);
    NeverRepeats(results[..|results| - 1]);
    var added := NewEntries(results[|results| - 1], Ids(before));
    NewEntriesFresh(results[|results| - 1], Ids(before));
    forall i, j | 0 <= i < |before| && 0 <= j < |added| ensures before[i].id != added[j].id {
      assert before[i] in before && added[j] in added;
    }
  }

  /** The log at each poll; entries are only ever appended, and their ids are unique. */
  ghost predicate AppendOnly(logs: seq<seq<LogEntry>>) {
    && (forall i, j :: 0 <= i <= j < |logs| ==> logs[i] <= logs[j])
    && (forall i :: 0 <= i < |logs| ==> DistinctIds(logs[i]))
  }

  function Results(logs: seq<seq<LogEntry>>): seq<seq<LogEntry>> {
    seq(|logs|, i requires 0 <= i < |logs| => Newest(logs[i]))
  }

  function Marshalable(entries: seq<LogEntry>): (r: seq<LogEntry>)
    ensures forall e :: e in r <==> e in entries && e.payload.Some?
  {
    if entries == [] then []
    else (if entries[0].payload.Some? then [entries[0]] else []) + Marshalable(entries[1..])
  }

  lemma Uncons<T>(a: seq<T>, b: seq<T>)
    requires a != []
    ensures a == [a[0]] + a[1..] && a + b == [a[0]] + (a[1..] + b)
  {}

  lemma ConsAssociative<T>(x: T, a: seq<T>, b: seq<T>)
    ensures [x] + (a + b) == ([x] + a) + b
  {}

  lemma MarshalableNone()
    ensures Marshalable([]) == []
  {}

  lemma MarshalableStep(first: LogEntry, rest: seq<LogEntry>)
    ensures Marshalable([first] + rest) == if first.payload.Some? then [first] + Marshalable(rest) else Marshalable(rest)
  {
    assert ([first] + rest)[1..] == rest;
  }

  lemma {:induction false} MarshalableConcat(a: seq<LogEntry>, b: seq<LogEntry>)
    ensures Marshalable(a + b) == Marshalable(a) + Marshalable(b)
  {
    hide *;
    if a == [] {
      assert a + b == b;
      MarshalableNone();
    } else {
      var first, rest := a[0], a[1..];
      Uncons(a, b);
      MarshalableConcat(rest, b);
      ConsAssociative(first, Marshalable(rest), Marshalable(b));
      MarshalableStep(first, rest);
      MarshalableStep(first, rest + b);
    }
  }

  /** A poll over entries of which exactly the first k have been emitted adds the others. */
  lemma {:induction false} NewFromSuffix(entries: seq<LogEntry>, k: nat, emitted: set<string>)
    requires k <= |entries| && DistinctIds(entries)
    requires forall i :: 0 <= i < |entries| ==> (entries[i].id in emitted <==> i < k && entries[i].payload.Some?)
    ensures NewEntries(Reverse(entries), emitted) == Marshalable(entries[k..])
  {
    if entries == [] { return; }
    var first, rest := entries[0], entries[1..];
    assert Reverse(entries)[..|rest|] == Reverse(rest);
    if k > 0 {
      NewFromSuffix(rest, k - 1, emitted);
      assert rest[k - 1..] == entries[k..];
    } else if first.payload.Some? {
      NewFromSuffix(rest, 0, emitted + {first.id});
    } else {
      NewFromSuffix(rest, 0, emitted);
    }
  }

  /** How much of a log its reader has been offered after a poll. */
  ghost predicate CaughtUp(log: seq<LogEntry>, emitted: seq<LogEntry>) {
    && (forall i :: WindowStart(log) <= i < |log| ==> (log[i].id in Ids(emitted) <==> log[i].payload.Some?))
    && (forall e :: e in emitted ==> e in log && e.payload.Some?)
  }

  /** The entries that a poll adds: those since the last poll that are still in its window. */
  function Added(older: seq<LogEntry>, log: seq<LogEntry>): seq<LogEntry> {
    if WindowStart(log) < |older| <= |log| then log[|older|..] else log[WindowStart(log)..]
  }

  /** Ids that come from some of the log's entries are not the id of another. */
  lemma IdNotAmong(log: seq<LogEntry>, i: nat, some: seq<LogEntry>)
    requires i < |log| && DistinctIds(log)
    requires forall e :: e in some ==> e in log && e != log[i]
    ensures log[i].id !in Ids(some)
  {
    forall e | e in some ensures e.id != log[i].id {
      var j :| 0 <= j < |log| && log[j] == e;
      assert j != i;
    }
  }

  lemma IdsConcat(a: seq<LogEntry>, b: seq<LogEntry>)
    ensures Ids(a + b) == Ids(a) + Ids(b)
  {}

  lemma IdAmong(some: seq<LogEntry>, e: LogEntry)
    requires e in some
    ensures e.id in Ids(some)
  {}

  lemma LaterNotOlder(older: seq<LogEntry>, log: seq<LogEntry>, i: nat)
    requires older <= log && DistinctIds(log) && |older| <= i < |log|
    ensures log[i] !in older
  {
    forall j | 0 <= j < |older| ensures older[j] != log[i] { assert older[j] == log[j]; }
  }

  /** The entries of the window already emitted are exactly those of the previous log. */
  lemma SeenEntries(older: seq<LogEntry>, log: seq<LogEntry>, before: seq<LogEntry>)
    requires older <= log && DistinctIds(log) && CaughtUp(older, before)
    ensures forall i :: WindowStart(log) <= i < |log| ==> (log[i].id in Ids(before) <==> i < |older| && log[i].payload.Some?)
  {
    hide Ids;
    forall i | WindowStart(log) <= i < |log| ensures log[i].id in Ids(before) <==> i < |older| && log[i].payload.Some? {
      if i < |older| {
        assert log[i] == older[i];
      } else {
        LaterNotOlder(older, log, i);
        assert forall e :: e in before ==> e in older;
        IdNotAmong(log, i, before);
      }
    }
  }

  /** One poll adds exactly the entries that are new and in its window. */
  lemma PollAdds(older: seq<LogEntry>, log: seq<LogEntry>, before: seq<LogEntry>)
    requires older <= log && DistinctIds(log) && CaughtUp(older, before)
    ensures NewEntries(Newest(log), Ids(before)) == Marshalable(Added(older, log))
    ensures CaughtUp(log, before + Marshalable(Added(older, log)))
  {
    var start := WindowStart(log);
    var k := if |older| <= start then 0 else |older| - start;
    SeenEntries(older, log, before);
    NewFromSuffix(log[start..], k, Ids(before));
    assert log[start..][k..] == Added(older, log);
    PollCatchesUp(older, log, before);
  }

  lemma PollCatchesUp(older: seq<LogEntry>, log: seq<LogEntry>, before: seq<LogEntry>)
    requires older <= log && DistinctIds(log) && CaughtUp(older, before)
    ensures CaughtUp(log, before + Marshalable(Added(older, log)))
  {
    hide Ids, Marshalable;
    SeenEntries(older, log, before);
    var added := Marshalable(Added(older, log));
    IdsConcat(before, added);
    forall i | WindowStart(log) <= i < |log| ensures log[i].id in Ids(before + added) <==> log[i].payload.Some? {
      if log[i].payload.None? {
        IdNotAmong(log, i, added);
      } else if i >= |older| {
        assert log[i] in Added(older, log);
        IdAmong(added, log[i]);
      }
    }
  }

  function LogBefore(logs: seq<seq<LogEntry>>, n: nat): seq<LogEntry>
    requires n <= |logs|
  {
    if n == 0 then [] else logs[n - 1]
  }

  lemma EmittedUnfold(logs: seq<seq<LogEntry>>, n: nat)
    requires n < |logs|
    ensures Emitted(Results(logs)[..n + 1])
            == Emitted(Results(logs)[..n]) + NewEntries(Newest(logs[n]), Ids(Emitted(Results(logs)[..n])))
  {
    assert Results(logs)[..n + 1][..n] == Results(logs)[..n];
  }

  /** The stream, poll by poll. */
  lemma {:induction false} EmittedStep(logs: seq<seq<LogEntry>>, n: nat)
    requires AppendOnly(logs) && n < |logs|
    ensures Emitted(Results(logs)[..n + 1]) == Emitted(Results(logs)[..n]) + Marshalable(Added(LogBefore(logs, n), logs[n]))
    ensures CaughtUp(logs[n], Emitted(Results(logs)[..n + 1]))
  {
    assert LogBefore(logs, n) <= logs[n] && (n == 0 ==> LogBefore(logs, n) == [] && Emitted(Results(logs)[..n]) == []);
    assert DistinctIds(logs[n]);
    assert n == 0 ==> CaughtUp([], []);
    assert n > 0 ==> LogBefore(logs, n) == logs[n - 1];
    hide *;
    if n > 0 { EmittedStep(logs, n - 1); }
    EmittedUnfold(logs, n);
    PollAdds(LogBefore(logs, n), logs[n], Emitted(Results(logs)[..n]));
  }

  /** The entries that poll n misses: those pushed out of the window since the poll before. */
  function MissedAt(logs: seq<seq<LogEntry>>, n: nat): seq<LogEntry>
    requires n < |logs|
  {
    if n == 0 then []
    else
      var older, start := |logs[n - 1]|, WindowStart(logs[n]);
      if older < start then Marshalable(logs[n][older..start]) else []
  }

  /** How many entries the first n polls miss. */
  function Missed(logs: seq<seq<LogEntry>>, n: nat): (m: nat)
    requires n <= |logs|
  {
    if n == 0 then 0 else Missed(logs, n - 1) + |MissedAt(logs, n - 1)|
  }

  /** If at most 100 entries arrive between polls, the stream is the initial window followed
      by every later entry, in the order of the log. */
  lemma StreamIsLog(logs: seq<seq<LogEntry>>, n: nat)
    requires AppendOnly(logs) && n < |logs|
    requires forall i :: 1 <= i <= n ==> |logs[i]| - |logs[i - 1]| <= 100
    ensures Emitted(Results(logs)[..n + 1]) == Marshalable(logs[n][WindowStart(logs[0])..])
  {
    hide Emitted, Results, Marshalable, AppendOnly;
    NothingMissed(logs, n);
  }

  lemma StreamStarts(logs: seq<seq<LogEntry>>)
    requires AppendOnly(logs) && logs != []
    ensures Emitted(Results(logs)[..1]) == Marshalable(logs[0][WindowStart(logs[0])..])
  {
    EmittedStep(logs, 0);
    assert Emitted(Results(logs)[..0]) == [];
  }

  /** Everything in the log from the first window on is either emitted or missed. */
  lemma {:induction false} StreamLength(logs: seq<seq<LogEntry>>, n: nat)
    requires AppendOnly(logs) && n < |logs|
    ensures |Emitted(Results(logs)[..n + 1])| + Missed(logs, n + 1) == |Marshalable(logs[n][WindowStart(logs[0])..])|
  {
    hide *;
    NoneMissed(logs);
    MissedStep(logs, n);
    WindowBefore(logs, n);
    EmittedStep(logs, n);
    if n == 0 {
      StreamStarts(logs);
    } else {
      StreamLength(logs, n - 1);
      AddedOrMissed(logs, n, WindowStart(logs[0]));
    }
  }

  lemma NoneMissed(logs: seq<seq<LogEntry>>)
    ensures Missed(logs, 0) == 0
  {}

  lemma WindowBefore(logs: seq<seq<LogEntry>>, n: nat)
    requires AppendOnly(logs) && n < |logs|
    ensures WindowStart(logs[0]) <= |logs[0]|
    ensures n > 0 ==> logs[0] <= logs[n - 1] <= logs[n] && |logs[0]| <= |logs[n - 1]| && LogBefore(logs, n) == logs[n - 1]
  {}

  lemma MissedStep(logs: seq<seq<LogEntry>>, n: nat)
    requires n < |logs|
    ensures Missed(logs, 0) == 0 && Missed(logs, n + 1) == Missed(logs, n) + |MissedAt(logs, n)|
    ensures n == 0 ==> MissedAt(logs, n) == []
  {}

  lemma AddedOrMissed(logs: seq<seq<LogEntry>>, n: nat, first: nat)
    requires 0 < n < |logs| && first <= |logs[n - 1]| && logs[n - 1] <= logs[n]
    ensures |Marshalable(logs[n][first..])|
            == |Marshalable(logs[n - 1][first..])| + |Marshalable(Added(logs[n - 1], logs[n]))| + |MissedAt(logs, n)|
  {
    hide Marshalable;
    var older, log := logs[n - 1], logs[n];
    var start := WindowStart(log);
    assert log[first..] == older[first..] + log[|older|..];
    MarshalableConcat(older[first..], log[|older|..]);
    if |older| < start {
      assert log[|older|..] == log[|older|..start] + log[start..];
      MarshalableConcat(log[|older|..start], log[start..]);
    } else {
      assert |older| == start ==> log[|older|..] == log[start..];
      MarshalableNone();
    }
  }

  lemma {:induction false} MissedZero(logs: seq<seq<LogEntry>>, n: nat)
    requires n <= |logs|
    ensures Missed(logs, n) == 0 <==> forall i :: 0 <= i < n ==> MissedAt(logs, i) == []
  {
    hide *;
    if n > 0 {
      MissedZero(logs, n - 1);
      MissedStep(logs, n - 1);
    } else {
      NoneMissed(logs);
    }
  }

  /** The stream is the first window and then every later entry that marshals exactly if no poll
      misses one. */
  lemma MissedNothingIff(logs: seq<seq<LogEntry>>, n: nat)
    requires AppendOnly(logs) && n < |logs|
    ensures Emitted(Results(logs)[..n + 1]) == Marshalable(logs[n][WindowStart(logs[0])..])
            <==> forall i :: 0 <= i <= n ==> MissedAt(logs, i) == []
  {
    hide *;
    StreamLength(logs, n);
    MissedZero(logs, n + 1);
    if forall i :: 0 <= i <= n ==> MissedAt(logs, i) == [] { NothingMissed(logs, n); }
  }

  lemma {:induction false} NothingMissed(logs: seq<seq<LogEntry>>, n: nat)
    requires AppendOnly(logs) && n < |logs|
    requires forall i :: 0 <= i <= n ==> MissedAt(logs, i) == []
    ensures Emitted(Results(logs)[..n + 1]) == Marshalable(logs[n][WindowStart(logs[0])..])
  {
    hide *;
    WindowBefore(logs, n);
    if n == 0 {
      StreamStarts(logs);
    } else {
      NothingMissed(logs, n - 1);
      EmittedStep(logs, n);
      AllAdded(logs, n, WindowStart(logs[0]));
    }
  }

  lemma AllAdded(logs: seq<seq<LogEntry>>, n: nat, first: nat)
    requires 0 < n < |logs| && first <= |logs[n - 1]| && logs[n - 1] <= logs[n] && MissedAt(logs, n) == []
    ensures Marshalable(logs[n - 1][first..]) + Marshalable(Added(logs[n - 1], logs[n])) == Marshalable(logs[n][first..])
  {
    hide Marshalable;
    var older, log := logs[n - 1], logs[n];
    var start := WindowStart(log);
    assert log[first..] == older[first..] + log[|older|..];
    MarshalableConcat(older[first..], log[|older|..]);
    if |older| < start {
      assert log[|older|..] == log[|older|..start] + log[start..];
      MarshalableConcat(log[|older|..start], log[start..]);
      assert [] + Marshalable(log[start..]) == Marshalable(log[start..]);
    } else {
      assert |older| == start ==> log[|older|..] == log[start..];
      MarshalableNone();
    }
  }

  /** When every entry marshals, exactly if at most 100 arrive between any two polls. */
  lemma GapsIff(logs: seq<seq<LogEntry>>, n: nat)
    requires AppendOnly(logs) && n < |logs|
    requires forall e :: e in logs[n] ==> e.payload.Some?
    ensures Emitted(Results(logs)[..n + 1]) == Marshalable(logs[n][WindowStart(logs[0])..])
            <==> forall i :: 1 <= i <= n ==> |logs[i]| - |logs[i - 1]| <= 100
  {
    hide Emitted, Results, Marshalable, Newest, DistinctIds;
    MissedNothingIff(logs, n);
    forall i | 1 <= i <= n ensures MissedAt(logs, i) == [] <==> |logs[i]| - |logs[i - 1]| <= POLL_LIMIT {
      assert logs[i - 1] <= logs[i] <= logs[n];
      var older, start := |logs[i - 1]|, WindowStart(logs[i]);
      if older < start {
        forall e | e in logs[i][older..start] ensures e.payload.Some? { assert e in logs[n]; }
        AllMarshal(logs[i][older..start]);
      }
    }
  }

  lemma {:induction false} AllMarshal(entries: seq<LogEntry>)
    requires forall e :: e in entries ==> e.payload.Some?
    ensures Marshalable(entries) == entries
  {
    if entries != [] { AllMarshal(entries[1..]); }
  }
}
