/** What the webhook scripts do to a database (internal/api/project_database_webhook_handlers.go): the
    statements run against a small model of the catalog. PostgreSQL keeps the first 63 characters of
    a name ("Identifiers and Key Words" in its manual), so names that are longer can meet. */
module WebhookCatalog {
  import opened SqlText
  import opened SqlForms
  import opened WebhookReader
  import opened WebhookScripts
  import opened WebhookWords
  import opened Wrappers
  import Text
  import Create = WebhookCreateSql
  import Delete = WebhookSql

  const MAX_NAME := 63

  function Cut(name: string): string { if |name| <= MAX_NAME then name else name[..MAX_NAME] }

  datatype Trigger = Trigger(event: string, function_: string)

  type Key = (string, string, string)     // (trigger, schema, table)

  /** Tables by schema and name, functions of the schema supadupa, and triggers. */
  datatype Catalog = Catalog(tables: set<(string, string)>, functions: map<string, Delivery>, triggers: map<Key, Trigger>)

  function KeyOf(trigger: string, schema: string, table: string): Key { (Cut(trigger), Cut(schema), Cut(table)) }

  /** to_regclass, for names that need no quotes. */
  ghost predicate Found(db: Catalog, class_: string) {
    exists t :: t in db.tables && class_ == t.0 + "." + t.1
  }

  /** One statement; None when it fails. The extension is there to be created. */
  ghost function Exec(db: Catalog, s: Statement): Option<Catalog> {
    match s
    case EnsureSchema => Some(db)
    case EnsureExtension => Some(db)
    case ReplaceFunction(name, delivery) => Some(db.(functions := db.functions[Cut(name) := delivery]))
    case DropTrigger(trigger, schema, table) => Some(db.(triggers := db.triggers - {KeyOf(trigger, schema, table)}))
    case CreateTrigger(trigger, event, schema, table, name) =>
      if (Cut(schema), Cut(table)) in db.tables && Cut(name) in db.functions && KeyOf(trigger, schema, table) !in db.triggers
      then Some(db.(triggers := db.triggers[KeyOf(trigger, schema, table) := Trigger(event, Cut(name))])) else None
    case DropTriggerIf(class_, trigger, schema, table) =>
      Some(if Found(db, class_) then db.(triggers := db.triggers - {KeyOf(trigger, schema, table)}) else db)
    case DropFunction(name) =>
      if Cut(name) in db.functions && exists k :: k in db.triggers && db.triggers[k].function_ == Cut(name) then None
      else Some(db.(functions := db.functions - {Cut(name)}))
  }

  ghost function Run(db: Catalog, statements: seq<Statement>): Option<Catalog> {
    if statements == [] then Some(db)
    else match Run(db, statements[..|statements| - 1])
      case None => None
      case Some(next) => Exec(next, statements[|statements| - 1])
  }

  lemma {:induction false} RunConcat(db: Catalog, a: seq<Statement>, b: seq<Statement>)
    ensures Run(db, a + b) == match Run(db, a) case None => None case Some(next) => Run(next, b)
  {
    if b == [] {
      assert a + b == a;
    } else {
      assert (a + b)[..|a + b| - 1] == a + b[..|b| - 1];
      hide Exec;
      RunConcat(db, a, b[..|b| - 1]);
    }
  }

  lemma RunOne(db: Catalog, s: Statement)
    ensures Run(db, [s]) == Exec(db, s)
  {
    assert [s][..0] == [] && Run(db, []) == Some(db);
    hide Exec;
  }

  /** Triggers stand on tables that are there and call functions that are there. */
  ghost predicate WellFormed(db: Catalog) {
    forall k :: k in db.triggers ==> (k.1, k.2) in db.tables && db.triggers[k].function_ in db.functions
  }

  // Webhooks that the store admits

  function Stripped(w: Create.Webhook): Delete.Webhook { Delete.Webhook(w.name, w.schema, w.table, w.events, w.active) }

  predicate Stored(w: Create.Webhook) { Delete.Stored(Stripped(w)) && w.timeoutSeconds >= 0 }

  function FunctionOf(w: Create.Webhook): string { Cut(Create.FunctionName(w)) }

  function TriggerOf(w: Create.Webhook, event: string): Key { KeyOf(Create.TriggerName(w, event), w.schema, w.table) }

  function DeliveryOf(w: Create.Webhook, headers: string): Delivery { Delivery(headers, w.endpoint, w.timeoutSeconds * 1000) }

  lemma StoredTable(w: Create.Webhook)
    requires Stored(w)
    ensures Cut(w.schema) == w.schema && Cut(w.table) == w.table
  {}

  // Installing

  function WithTriggers(triggers: map<Key, Trigger>, w: Create.Webhook, events: seq<string>): map<Key, Trigger> {
    if events == [] then triggers
    else
      var e := events[|events| - 1];
      WithTriggers(triggers, w, events[..|events| - 1])[TriggerOf(w, e) := Trigger(Create.ToUpper(e), FunctionOf(w))]
  }

  function Installed(db: Catalog, w: Create.Webhook, headers: string): Catalog {
    Catalog(db.tables, db.functions[FunctionOf(w) := DeliveryOf(w, headers)], WithTriggers(db.triggers, w, w.events))
  }

  /** Dropping a trigger and creating it puts it there. */
  lemma OneTrigger(db: Catalog, w: Create.Webhook, event: string)
    requires Stored(w) && FunctionOf(w) in db.functions
    ensures var t := Create.TriggerName(w, event);
            Run(db, [DropTrigger(t, w.schema, w.table)]
                    + [CreateTrigger(t, Create.ToUpper(event), w.schema, w.table, Create.FunctionName(w))])
            == if (w.schema, w.table) in db.tables
               then Some(db.(triggers := db.triggers[TriggerOf(w, event) := Trigger(Create.ToUpper(event), FunctionOf(w))]))
               else None
  {
    var t, k := Create.TriggerName(w, event), TriggerOf(w, event);
    var drop := DropTrigger(t, w.schema, w.table);
    var create := CreateTrigger(t, Create.ToUpper(event), w.schema, w.table, Create.FunctionName(w));
    StoredTable(w);
    hide Create.TriggerName, Create.FunctionName, Create.ToUpper, Stored, Run, Cut;
    RunConcat(db, [drop], [create]);
    RunOne(db, drop);
    var dropped := db.(triggers := db.triggers - {k});
    RunOne(dropped, create);
    assert (db.triggers - {k})[k := Trigger(Create.ToUpper(event), FunctionOf(w))]
        == db.triggers[k := Trigger(Create.ToUpper(event), FunctionOf(w))];
  }

  lemma TriggersRunStep(triggers: map<Key, Trigger>, w: Create.Webhook, events: seq<string>, event: string)
    ensures WithTriggers(triggers, w, events + [event])
            == WithTriggers(triggers, w, events)[TriggerOf(w, event) := Trigger(Create.ToUpper(event), FunctionOf(w))]
    ensures WithTriggers(triggers, w, []) == triggers
  {
    assert (events + [event])[..|events|] == events;
    hide TriggerOf, FunctionOf, Create.ToUpper;
  }

  lemma RunNothing(db: Catalog)
    ensures Run(db, []) == Some(db) && db.(triggers := db.triggers) == db
  {}

  lemma {:induction false} TriggersRun(db: Catalog, w: Create.Webhook, events: seq<string>)
    requires Stored(w) && FunctionOf(w) in db.functions
    ensures Run(db, TriggersOn(w, events))
            == if events == [] || (w.schema, w.table) in db.tables
               then Some(db.(triggers := WithTriggers(db.triggers, w, events))) else None
  {
    hide *;
    if events == [] {
      TriggersOnStep(w, [], "");
      TriggersRunStep(db.triggers, w, [], "");
      RunNothing(db);
      return;
    }
    var before, e := events[..|events| - 1], events[|events| - 1];
    assert events == before + [e];
    TriggersRun(db, w, before);
    TriggersOnStep(w, before, e);
    TriggersRunStep(db.triggers, w, before, e);
    var t := Create.TriggerName(w, e);
    var both := [DropTrigger(t, w.schema, w.table)]
                + [CreateTrigger(t, Create.ToUpper(e), w.schema, w.table, Create.FunctionName(w))];
    RunConcat(db, TriggersOn(w, before), both);
    if before == [] || (w.schema, w.table) in db.tables {
      var next := db.(triggers := WithTriggers(db.triggers, w, before));
      OneTrigger(next, w, e);
    }
  }

  /** Installing a webhook succeeds exactly if its table is there or it has no events; then its
      function posts to its endpoint, and each event's trigger, under the name that is left of the
      trigger's, is the one created last. */
  lemma InstallationRuns(db: Catalog, w: Create.Webhook, headers: string)
    requires Stored(w)
    ensures Run(db, Installation(w, headers))
            == if w.events == [] || (w.schema, w.table) in db.tables then Some(Installed(db, w, headers)) else None
  {
    InstallationIs(w, headers);
    var replace := ReplaceFunction(Create.FunctionName(w), DeliveryOf(w, headers));
    var head := [EnsureSchema] + ([EnsureExtension] + [replace]);
    hide TriggersOn, Create.FunctionName, Stored, Run, Installation, WithTriggers, Cut;
    RunConcat(db, head, TriggersOn(w, w.events));
    RunConcat(db, [EnsureSchema], [EnsureExtension] + [replace]);
    RunConcat(db, [EnsureExtension], [replace]);
    RunOne(db, EnsureSchema);
    RunOne(db, EnsureExtension);
    RunOne(db, replace);
    var next := db.(functions := db.functions[FunctionOf(w) := DeliveryOf(w, headers)]);
    assert Run(db, head) == Some(next);
    TriggersRun(next, w, w.events);
  }

  // Which events fire

  lemma DashLength(name: string)
    ensures |Delete.DashToUnderscore(name)| == |name|
  {}

  lemma TriggerLength(w: Create.Webhook, event: string)
    ensures var stem := "supadupa_webhook_" + Delete.DashToUnderscore(w.name) + "_";
            Create.TriggerName(w, event) == stem + Text.ToLower(event) && |stem| == 18 + |w.name|
  {
    assert |"supadupa_webhook_"| == 17;
  }

  lemma StoredEvent(event: string)
    requires event in ["insert", "update", "delete"]
    ensures Text.ToLower(event) == event && |event| == 6
    ensures event[0] == (if event == "insert" then 'i' else if event == "update" then 'u' else 'd')
    ensures Create.ToUpper(event) == (if event == "insert" then "INSERT" else if event == "update" then "UPDATE" else "DELETE")
  {}

  lemma CutOf(stem: string, rest: string)
    ensures |stem| >= MAX_NAME ==> Cut(stem + rest) == stem[..MAX_NAME]
    ensures |stem| < MAX_NAME && rest != "" ==> |Cut(stem + rest)| > |stem| && Cut(stem + rest)[|stem|] == rest[0]
  {}

  /** Two events of a webhook have triggers of one name exactly if they are the same event, or the
      webhook's name leaves no room for theirs. */
  lemma SameTriggerIff(w: Create.Webhook, a: string, b: string)
    requires Stored(w) && a in w.events && b in w.events
    ensures TriggerOf(w, a) == TriggerOf(w, b) <==> a == b || |w.name| >= 45
  {
    var stem := "supadupa_webhook_" + Delete.DashToUnderscore(w.name) + "_";
    TriggerLength(w, a);
    TriggerLength(w, b);
    StoredEvent(a);
    StoredEvent(b);
    hide Create.TriggerName, Delete.DashToUnderscore, Text.ToLower;
    CutOf(stem, a);
    CutOf(stem, b);
  }

  lemma {:induction false} LastCreated(triggers: map<Key, Trigger>, w: Create.Webhook, events: seq<string>, event: string) returns (last: string)
    requires event in events
    ensures last in events && TriggerOf(w, last) == TriggerOf(w, event)
    ensures TriggerOf(w, event) in WithTriggers(triggers, w, events)
    ensures WithTriggers(triggers, w, events)[TriggerOf(w, event)] == Trigger(Create.ToUpper(last), FunctionOf(w))
  {
    hide *;
    var before, e := events[..|events| - 1], events[|events| - 1];
    assert events == before + [e];
    TriggersRunStep(triggers, w, before, e);
    last := e;
    if TriggerOf(w, e) != TriggerOf(w, event) {
      assert event != e && event in before;
      last := LastCreated(triggers, w, before, event);
    }
  }

  lemma LastEvent(triggers: map<Key, Trigger>, w: Create.Webhook, events: seq<string>)
    requires events != []
    ensures var e := events[|events| - 1];
            TriggerOf(w, e) in WithTriggers(triggers, w, events)
            && WithTriggers(triggers, w, events)[TriggerOf(w, e)] == Trigger(Create.ToUpper(e), FunctionOf(w))
  {
    hide TriggerOf, FunctionOf, Create.ToUpper;
  }

  /** The webhook is delivered for the event: a trigger on its table fires for it and calls its function. */
  ghost predicate Fires(db: Catalog, w: Create.Webhook, event: string) {
    TriggerOf(w, event) in db.triggers && db.triggers[TriggerOf(w, event)] == Trigger(Create.ToUpper(event), FunctionOf(w))
  }

  lemma UpperDiffer(a: string, b: string)
    requires a in ["insert", "update", "delete"] && b in ["insert", "update", "delete"] && a != b
    ensures Create.ToUpper(a) != Create.ToUpper(b)
  {
    StoredEvent(a);
    StoredEvent(b);
    assert "INSERT"[0] == 'I' && "UPDATE"[0] == 'U' && "DELETE"[0] == 'D';
  }

  lemma StoredEvents(w: Create.Webhook)
    requires Stored(w)
    ensures forall e :: e in w.events ==> e in ["insert", "update", "delete"]
  {}

  /** After a webhook has been installed, each of its events fires exactly if its name has at most 44
      characters, or it has only one event: with a longer name, its triggers are all cut to one name,
      and each replaces the one before. */
  lemma EveryEventFiresIff(db: Catalog, w: Create.Webhook, headers: string)
    requires Stored(w)
    ensures (forall e :: e in w.events ==> Fires(Installed(db, w, headers), w, e))
            <==> |w.name| <= 44 || forall a, b :: a in w.events && b in w.events ==> a == b
  {
    var after := WithTriggers(db.triggers, w, w.events);
    StoredEvents(w);
    hide TriggerOf, FunctionOf, Create.ToUpper, WithTriggers, Stored;
    if |w.name| <= 44 || forall a, b :: a in w.events && b in w.events ==> a == b {
      forall e | e in w.events ensures Fires(Installed(db, w, headers), w, e) {
        var last := LastCreated(db.triggers, w, w.events, e);
        SameTriggerIff(w, last, e);
      }
    } else {
      var last := w.events[|w.events| - 1];
      var a, b :| a in w.events && b in w.events && a != b;
      var other := if a == last then b else a;
      LastEvent(db.triggers, w, w.events);
      SameTriggerIff(w, last, other);
      UpperDiffer(last, other);
      assert !Fires(Installed(db, w, headers), w, other);
    }
  }

  // Removing

  function Keys(w: Create.Webhook, events: seq<string>): set<Key> { set e | e in events :: TriggerOf(w, e) }

  lemma TableFound(db: Catalog, w: Create.Webhook)
    requires (w.schema, w.table) in db.tables
    ensures Found(db, w.schema + "." + w.table)
  {
    var t := (w.schema, w.table);
    assert t in db.tables && w.schema + "." + w.table == t.0 + "." + t.1;
  }

  lemma KeysStep(w: Create.Webhook, events: seq<string>, event: string)
    ensures Keys(w, events + [event]) == Keys(w, events) + {TriggerOf(w, event)} && Keys(w, []) == {}
  {
    hide TriggerOf;
  }

  lemma NothingDropped<K, V>(m: map<K, V>)
    ensures m - {} == m
  {}

  lemma DropMore<K, V>(m: map<K, V>, a: set<K>, b: set<K>)
    ensures m - a - b == m - (a + b)
  {}

  lemma {:induction false} TriggersDrop(db: Catalog, w: Create.Webhook, events: seq<string>)
    requires (w.schema, w.table) in db.tables
    ensures Run(db, TriggersOff(Stripped(w), events)) == Some(db.(triggers := db.triggers - Keys(w, events)))
  {
    hide *;
    var d := Stripped(w);
    if events == [] {
      TriggersOffStep(d, [], "");
      KeysStep(w, [], "");
      RunNothing(db);
      NothingDropped(db.triggers);
      return;
    }
    var before, e := events[..|events| - 1], events[|events| - 1];
    assert events == before + [e];
    TriggersDrop(db, w, before);
    TriggersOffStep(d, before, e);
    KeysStep(w, before, e);
    StrippedIs(w, e);
    var one := DropTriggerIf(d.schema + "." + d.table, Delete.TriggerName(d, e), d.schema, d.table);
    RunConcat(db, TriggersOff(d, before), [one]);
    var next := db.(triggers := db.triggers - Keys(w, before));
    RunOne(next, one);
    TableFound(next, w);
    DropsIt(next, w, e);
    DropMore(db.triggers, Keys(w, before), {TriggerOf(w, e)});
  }

  lemma StrippedIs(w: Create.Webhook, event: string)
    ensures var d := Stripped(w);
            d.schema == w.schema && d.table == w.table && Delete.TriggerName(d, event) == Create.TriggerName(w, event)
            && Delete.FunctionName(d) == Create.FunctionName(w) && d.events == w.events
  {}

  lemma DropsIt(db: Catalog, w: Create.Webhook, event: string)
    requires Found(db, w.schema + "." + w.table)
    ensures Exec(db, DropTriggerIf(w.schema + "." + w.table, Create.TriggerName(w, event), w.schema, w.table))
            == Some(db.(triggers := db.triggers - {TriggerOf(w, event)}))
  {
    hide Found, Create.TriggerName, Cut;
  }

  lemma DropFunctionRuns(db: Catalog, w: Create.Webhook)
    ensures Exec(db, DropFunction(Create.FunctionName(w)))
            == if FunctionOf(w) in db.functions && exists k :: k in db.triggers && db.triggers[k].function_ == FunctionOf(w)
               then None else Some(db.(functions := db.functions - {FunctionOf(w)}))
  {
    hide Create.FunctionName, Cut;
  }

  /** Where the webhook's table is there, removing the webhook succeeds exactly if no trigger but its own
      calls its function, and leaves neither its triggers nor its function. */
  lemma RemovalRuns(db: Catalog, w: Create.Webhook)
    requires (w.schema, w.table) in db.tables && FunctionOf(w) in db.functions
    ensures Run(db, Removal(Stripped(w)))
            == if exists k :: k in db.triggers && k !in Keys(w, w.events) && db.triggers[k].function_ == FunctionOf(w) then None
               else Some(Catalog(db.tables, db.functions - {FunctionOf(w)}, db.triggers - Keys(w, w.events)))
  {
    var d := Stripped(w);
    var next := db.(triggers := db.triggers - Keys(w, w.events));
    StrippedIs(w, "");
    RemovalIs(d);
    assert forall k :: k in next.triggers <==> k in db.triggers && k !in Keys(w, w.events);
    hide Run, Exec, Keys, FunctionOf, Removal, TriggersOff, Create.FunctionName, Delete.FunctionName, Found;
    TriggersDrop(db, w, w.events);
    RunConcat(db, TriggersOff(d, w.events), [DropFunction(Create.FunctionName(w))]);
    RunOne(next, DropFunction(Create.FunctionName(w)));
    DropFunctionRuns(next, w);
    assert forall k :: k in next.triggers ==> next.triggers[k] == db.triggers[k];
  }

  lemma {:induction false} OnlyItsOwn(triggers: map<Key, Trigger>, w: Create.Webhook, events: seq<string>)
    ensures forall k :: k in WithTriggers(triggers, w, events) <==> k in triggers || k in Keys(w, events)
    ensures forall k :: k in triggers && k !in Keys(w, events) ==> WithTriggers(triggers, w, events)[k] == triggers[k]
  {
    hide *;
    if events == [] {
      TriggersRunStep(triggers, w, [], "");
      KeysStep(w, [], "");
      return;
    }
    var before, e := events[..|events| - 1], events[|events| - 1];
    assert events == before + [e];
    OnlyItsOwn(triggers, w, before);
    TriggersRunStep(triggers, w, before, e);
    KeysStep(w, before, e);
  }

  /** Neither the function nor a trigger of the webhook's names is there. */
  ghost predicate Free(db: Catalog, w: Create.Webhook) {
    FunctionOf(w) !in db.functions && forall k :: k in db.triggers ==> k !in Keys(w, w.events)
  }

  /** Removing a webhook undoes installing it, if its names were free. */
  lemma RemovalUndoes(db: Catalog, w: Create.Webhook, headers: string)
    requires WellFormed(db) && Stored(w) && (w.schema, w.table) in db.tables && Free(db, w)
    ensures Run(db, Installation(w, headers)).Some?
    ensures Run(Run(db, Installation(w, headers)).value, Removal(Stripped(w))) == Some(db)
  {
    hide Run, Keys, FunctionOf, Removal, Installation, WithTriggers, Stored;
    InstallationRuns(db, w, headers);
    var after := Installed(db, w, headers);
    RemovalRuns(after, w);
    OnlyItsOwn(db.triggers, w, w.events);
    assert after.functions - {FunctionOf(w)} == db.functions;
    assert after.triggers - Keys(w, w.events) == db.triggers;
  }

  // Functions that meet

  lemma DashInjective(a: string, b: string, n: nat)
    requires RefPattern(a) && RefPattern(b) && n <= |a| && n <= |b|
    ensures Delete.DashToUnderscore(a)[..n] == Delete.DashToUnderscore(b)[..n] <==> a[..n] == b[..n]
  {
    var x, y := Delete.DashToUnderscore(a), Delete.DashToUnderscore(b);
    assert forall i :: 0 <= i < |a| ==> a[i] in a && a[i] != '_';
    assert forall i :: 0 <= i < |b| ==> b[i] in b && b[i] != '_';
    if x[..n] == y[..n] {
      forall i | 0 <= i < n ensures a[i] == b[i] { assert x[..n][i] == y[..n][i]; }
    } else {
      var i :| 0 <= i < n && x[..n][i] != y[..n][i];
      assert a[..n][i] != b[..n][i];
    }
  }

  lemma CutPrefix(stem: string, a: string, b: string)
    requires |stem| == 8
    ensures Cut(stem + a) == Cut(stem + b) <==> a == b || (|a| >= 55 && |b| >= 55 && a[..55] == b[..55])
  {
    assert forall i :: 0 <= i < |a| ==> (stem + a)[8 + i] == a[i];
    assert forall i :: 0 <= i < |b| ==> (stem + b)[8 + i] == b[i];
    if |a| >= 55 { assert Cut(stem + a) == stem + a[..55]; }
    if |b| >= 55 { assert Cut(stem + b) == stem + b[..55]; }
    if |a| < 55 { assert |Cut(stem + a)| < 63 && Cut(stem + a)[8..] == a; }
    if |b| < 55 { assert |Cut(stem + b)| < 63 && Cut(stem + b)[8..] == b; }
    if |a| >= 55 && |b| >= 55 { assert (stem + a[..55])[8..] == a[..55] && (stem + b[..55])[8..] == b[..55]; }
  }

  lemma DashEqual(a: string, b: string)
    requires RefPattern(a) && RefPattern(b)
    ensures Delete.DashToUnderscore(a) == Delete.DashToUnderscore(b) <==> a == b
  {
    var x, y := Delete.DashToUnderscore(a), Delete.DashToUnderscore(b);
    if x == y {
      assert |a| == |b| && x[..|a|] == x && y[..|b|] == y && a[..|a|] == a && b[..|b|] == b;
      DashInjective(a, b, |a|);
    }
  }

  /** Two webhooks have one function in the database exactly if they have one name, or names of at
      least 55 characters that start with the same 55. */
  lemma SharedFunctionIff(v: Create.Webhook, w: Create.Webhook)
    requires Stored(v) && Stored(w)
    ensures FunctionOf(v) == FunctionOf(w) <==>
              v.name == w.name || (|v.name| >= 55 && |w.name| >= 55 && v.name[..55] == w.name[..55])
  {
    var a, b := Delete.DashToUnderscore(v.name), Delete.DashToUnderscore(w.name);
    assert RefPattern(v.name) && RefPattern(w.name);
    assert Create.FunctionName(v) == "webhook_" + a && Create.FunctionName(w) == "webhook_" + b && |"webhook_"| == 8;
    hide RefPattern, Delete.DashToUnderscore, Cut, Stored;
    DashLength(v.name);
    DashLength(w.name);
    CutPrefix("webhook_", a, b);
    DashEqual(v.name, w.name);
    if |v.name| >= 55 && |w.name| >= 55 { DashInjective(v.name, w.name, 55); }
  }

  /** Installing one webhook redirects another to its own endpoint and headers exactly then, or if
      the two deliver alike. */
  lemma RedirectedIff(db: Catalog, v: Create.Webhook, w: Create.Webhook, headers: string)
    requires Stored(v) && Stored(w) && FunctionOf(v) in db.functions
    ensures Installed(db, w, headers).functions[FunctionOf(v)] == DeliveryOf(w, headers) <==>
              || v.name == w.name || (|v.name| >= 55 && |w.name| >= 55 && v.name[..55] == w.name[..55])
              || db.functions[FunctionOf(v)] == DeliveryOf(w, headers)
  {
    SharedFunctionIff(v, w);
    hide FunctionOf, Stored, WithTriggers;
  }

  // The texts

  /** A script read as SQL and run; None when it cannot be read or fails. */
  ghost function RunText(db: Catalog, text: string): Option<Catalog> {
    if Lex(text).None? then None
    else match ReadScript(Lex(text).value)
      case None => None
      case Some(statements) => Run(db, statements)
  }

  lemma RunTextIs(db: Catalog, text: string, ts: seq<Token>, statements: seq<Statement>)
    requires Lex(text) == Some(ts) && ReadScript(ts) == Some(statements)
    ensures RunText(db, text) == Run(db, statements)
  {}

  lemma StoredWords(w: Create.Webhook)
    requires Stored(w)
    ensures EventWords(w.events) && Delete.AllTagFree(Stripped(w), w.events) && w.timeoutSeconds >= 0
  {
    Delete.StoredTagFree(Stripped(w));
    UpperWords();
    assert forall e :: e in w.events ==> e in ["insert", "update", "delete"];
    hide Delete.AllTagFree, Delete.Stored, EventWord, Create.ToUpper, Plain;
  }

  lemma UpperWords()
    ensures forall e :: e in ["insert", "update", "delete"] ==> EventWord(Create.ToUpper(e)) && Plain(e)
  {
    StoredEvent("insert");
    StoredEvent("update");
    StoredEvent("delete");
    UpperTexts();
    hide Create.ToUpper;
  }

  lemma UpperTexts()
    ensures EventWord("INSERT") && EventWord("UPDATE") && EventWord("DELETE")
    ensures Plain("insert") && Plain("update") && Plain("delete")
  {}

  /** The texts do as much: for a webhook that the store admits, whose headers and endpoint do not end
      the function's body, the create text installs it, and the delete text then restores a catalog
      in which its names were free. */
  lemma TextsRun(db: Catalog, w: Create.Webhook, headers: string)
    requires WellFormed(db) && Stored(w) && Create.TagFree(headers, w) && (w.schema, w.table) in db.tables && Free(db, w)
    ensures var d := Stripped(w);
            && RunText(db, Create.CreateText(w, headers)) == Some(Installed(db, w, headers))
            && RunText(Installed(db, w, headers), Delete.DropBlocks(d, d.events) + Delete.DropFunction(d)) == Some(db)
  {
    var d := Stripped(w);
    StoredWords(w);
    StrippedIs(w, "");
    hide *;
    var create, delete := Create.CreateText(w, headers), Delete.DropBlocks(d, d.events) + Delete.DropFunction(d);
    CreateMeans(w, headers);
    DeleteMeans(d);
    RunTextIs(db, create, Phrase(create), Installation(w, headers));
    RunTextIs(Installed(db, w, headers), delete, Phrase(delete), Removal(d));
    InstallationRuns(db, w, headers);
    RemovalUndoes(db, w, headers);
  }
}
