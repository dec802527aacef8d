/** The webhook scripts mean what they should: lexed and read, they are the statements that install the
    trigger function and its triggers, and those that remove them
    (internal/api/project_database_webhook_handlers.go). */
module WebhookMeaning {
  import opened SqlText
  import opened SqlWords
  import opened SqlForms
  import opened WebhookReader
  import opened WebhookWords
  import opened Wrappers
  import RoleReader
  import Create = WebhookCreateSql
  import Delete = WebhookSql

  // The first words

  lemma HeadWords(ts: seq<Token>, a: string, b: string, more: seq<Token>)
    requires ts == [Word(a), Word(b)] + more
    ensures ts != [] && forall rest :: WordAt(ts + rest, 0) == a && WordAt(ts + rest, 1) == b
  {}

  // One statement at a time

  lemma SchemaSays()
    ensures Says(Phrase("CREATE SCHEMA IF NOT EXISTS supadupa;\n"), EnsureSchema)
  {
    hide Lex, Phrase, Laid, Fill, Parts;
    var ts := Phrase("CREATE SCHEMA IF NOT EXISTS supadupa;\n");
    Heads();
    HeadWords(ts, "CREATE", "SCHEMA", Phrase(" IF NOT EXISTS supadupa;\n"));
    LastPart("CREATE SCHEMA IF NOT EXISTS supadupa;\n");
    forall rest ensures ReadStatement(ts + rest) == Some((EnsureSchema, rest)) {
      PartsBack(SCHEMA_FORM, [], rest, 0);
    }
  }

  lemma ExtensionSays()
    ensures Says(Phrase("CREATE EXTENSION IF NOT EXISTS pg_net;\n"), EnsureExtension)
  {
    hide Lex, Phrase, Laid, Fill, Parts;
    var ts := Phrase("CREATE EXTENSION IF NOT EXISTS pg_net;\n");
    Heads();
    HeadWords(ts, "CREATE", "EXTENSION", Phrase(" IF NOT EXISTS pg_net;\n"));
    LastPart("CREATE EXTENSION IF NOT EXISTS pg_net;\n");
    forall rest ensures ReadStatement(ts + rest) == Some((EnsureExtension, rest)) {
      PartsBack(EXTENSION_FORM, [], rest, 0);
    }
  }

  lemma DropTriggerRead(ts: seq<Token>, values: seq<string>, rest: seq<Token>)
    requires WordAt(ts, 0) == "DROP" && WordAt(ts, 1) == "TRIGGER" && |values| == 3
    requires Parts(DropTriggerForm(";\n"), ts, 3) == Some((values, rest))
    ensures ReadStatement(ts) == Some((DropTrigger(values[0], values[1], values[2]), rest))
  {
    hide Parts, DropTriggerForm, WordAt;
  }

  lemma DropFunctionRead(ts: seq<Token>, values: seq<string>, rest: seq<Token>)
    requires WordAt(ts, 0) == "DROP" && WordAt(ts, 1) == "FUNCTION" && |values| == 1
    requires Parts(DROP_FUNCTION_FORM, ts, 1) == Some((values, rest))
    ensures ReadStatement(ts) == Some((DropFunction(values[0]), rest))
  {
    hide Parts, DropTriggerForm, WordAt;
  }

  lemma TriggerRead(ts: seq<Token>, event: string, values: seq<string>, rest: seq<Token>)
    requires WordAt(ts, 0) == "CREATE" && WordAt(ts, 1) == "TRIGGER" && WordAt(ts, 4) == event && |values| == 4
    requires Parts(TriggerForm(event), ts, 4) == Some((values, rest))
    ensures ReadStatement(ts) == Some((CreateTrigger(values[0], event, values[1], values[2], values[3]), rest))
  {
    hide Parts, TriggerForm, WordAt;
  }

  lemma FunctionRead(ts: seq<Token>, values: seq<string>, body: string, rest: seq<Token>)
    requires WordAt(ts, 0) == "CREATE" && WordAt(ts, 1) == "OR" && |values| == 1 && ReadDelivery(body).Some?
    requires Parts(FUNCTION_FORM, ts, 1) == Some((values, [Dollar(body), END] + rest))
    ensures ReadStatement(ts) == Some((ReplaceFunction(values[0], ReadDelivery(body).value), rest))
  {
    hide Parts, WordAt, ReadDelivery;
    assert ([Dollar(body), END] + rest)[2..] == rest;
  }

  lemma SaysIf(ts: seq<Token>, s: Statement)
    requires ts != [] && forall rest :: ReadStatement(ts + rest) == Some((s, rest))
    ensures Says(ts, s)
  {
    hide ReadStatement;
  }

  // What a statement's tokens start with

  lemma FormStart(f: Form, values: seq<string>, head: seq<Token>, more: seq<Token>) returns (later: seq<Token>)
    requires AllOpen(f) && f.parts != [] && |values| == |f.parts| == Places(Laid(f)) && Phrase(f.parts[0].0) == head + more
    ensures Fill(Laid(f), values) == head + later
  {
    hide *;
    assert values == [values[0]] + values[1..];
    FirstPart(f, values[0], values[1..]);
    var others := [TokenAt(f.parts[0].1, values[0])] + Fill(Laid(Form(f.parts[1..], f.last)), values[1..]);
    later := more + others;
    assert head + more + others == head + later;
  }

  lemma DropTriggerOpen()
    ensures AllOpen(DropTriggerForm(";\n")) && |DropTriggerForm(";\n").parts| == 3
    ensures DropTriggerForm(";\n").parts[0].0 == "DROP TRIGGER IF EXISTS "
    ensures AllOpen(DROP_FUNCTION_FORM) && |DROP_FUNCTION_FORM.parts| == 1
    ensures DROP_FUNCTION_FORM.parts[0].0 == "DROP FUNCTION IF EXISTS supadupa."
    ensures AllOpen(FUNCTION_FORM) && |FUNCTION_FORM.parts| == 1
    ensures FUNCTION_FORM.parts[0].0 == "CREATE OR REPLACE FUNCTION supadupa."
  {}

  lemma DropTriggerSays(trigger: string, schema: string, table: string)
    ensures Places(Laid(DropTriggerForm(";\n"))) == 3
    ensures Says(Fill(Laid(DropTriggerForm(";\n")), [trigger, schema, table]), DropTrigger(trigger, schema, table))
  {
    hide *;
    var f, values := DropTriggerForm(";\n"), [trigger, schema, table];
    DropTriggerOpen();
    FormPlaces(f);
    Heads();
    var more := FormStart(f, values, [Word("DROP"), Word("TRIGGER")], Phrase(" IF EXISTS "));
    var ts := Fill(Laid(f), values);
    HeadWords(ts, "DROP", "TRIGGER", more);
    forall rest ensures ReadStatement(ts + rest) == Some((DropTrigger(trigger, schema, table), rest)) {
      PartsBack(f, values, rest, 3);
      DropTriggerRead(ts + rest, values, rest);
    }
    SaysIf(ts, DropTrigger(trigger, schema, table));
  }

  lemma DropFunctionSays(name: string)
    ensures Places(Laid(DROP_FUNCTION_FORM)) == 1
    ensures Says(Fill(Laid(DROP_FUNCTION_FORM), [name]), DropFunction(name))
  {
    DropTriggerOpen();
    hide Lex, Phrase, Laid, Fill, Parts, ReadStatement, Says, AllOpen;
    var f := DROP_FUNCTION_FORM;
    FormPlaces(f);
    Heads();
    var more := FormStart(f, [name], [Word("DROP"), Word("FUNCTION")], Phrase(" IF EXISTS supadupa."));
    var ts := Fill(Laid(f), [name]);
    HeadWords(ts, "DROP", "FUNCTION", more);
    forall rest ensures ReadStatement(ts + rest) == Some((DropFunction(name), rest)) {
      PartsBack(f, [name], rest, 1);
      DropFunctionRead(ts + rest, [name], rest);
    }
    SaysIf(ts, DropFunction(name));
  }

  lemma TriggerFormIs(event: string)
    ensures AllOpen(TriggerForm(event)) && |TriggerForm(event).parts| == 4
    ensures TriggerForm(event).parts[0] == ("CREATE TRIGGER ", AName) && TriggerForm(event).parts[1] == ("\nAFTER " + event + " ON ", AName)
  {}

  lemma FiveTokens(ts: seq<Token>, name: string, event: string, more: seq<Token>)
    requires ts == [Word("CREATE"), Word("TRIGGER")] + ([Ident(name)] + ([Word("AFTER"), Word(event)] + more))
    ensures ts != [] && forall rest ::
              WordAt(ts + rest, 0) == "CREATE" && WordAt(ts + rest, 1) == "TRIGGER" && WordAt(ts + rest, 4) == event
  {}

  lemma TriggerStart(event: string, values: seq<string>) returns (more: seq<Token>)
    requires EventWord(event) && |values| == 4
    ensures Places(Laid(TriggerForm(event))) == 4
    ensures Fill(Laid(TriggerForm(event)), values)
            == [Word("CREATE"), Word("TRIGGER")] + ([Ident(values[0])] + ([Word("AFTER"), Word(event)] + more))
  {
    hide *;
    var f := TriggerForm(event);
    TriggerFormIs(event);
    FormPlaces(f);
    var f1 := Form(f.parts[1..], f.last);
    assert values == [values[0]] + values[1..] && values[1..] == [values[1]] + values[2..];
    FirstPart(f, values[0], values[1..]);
    FirstPart(f1, values[1], values[2..]);
    Heads();
    BlankPhrase();
    AfterIs(event);
    NameToken(values[0]);
    more := Phrase(" ON ") + ([TokenAt(f1.parts[0].1, values[1])] + Fill(Laid(Form(f1.parts[1..], f.last)), values[2..]));
  }

  lemma NameToken(name: string)
    ensures TokenAt(AName, name) == Ident(name)
  {}

  lemma TriggerSays(event: string, trigger: string, schema: string, table: string, name: string)
    requires EventWord(event)
    ensures Places(Laid(TriggerForm(event))) == 4
    ensures Says(Fill(Laid(TriggerForm(event)), [trigger, schema, table, name]), CreateTrigger(trigger, event, schema, table, name))
  {
    hide *;
    var f, values := TriggerForm(event), [trigger, schema, table, name];
    var more := TriggerStart(event, values);
    var ts := Fill(Laid(f), values);
    FiveTokens(ts, trigger, event, more);
    forall rest ensures ReadStatement(ts + rest) == Some((CreateTrigger(trigger, event, schema, table, name), rest)) {
      PartsBack(f, values, rest, 4);
      TriggerRead(ts + rest, event, values, rest);
    }
    SaysIf(ts, CreateTrigger(trigger, event, schema, table, name));
  }

  lemma FunctionSays(name: string, body: string)
    requires ReadDelivery(body).Some?
    ensures Places(Laid(FUNCTION_FORM)) == 1
    ensures Says(Fill(Laid(FUNCTION_FORM), [name]) + [Dollar(body), END], ReplaceFunction(name, ReadDelivery(body).value))
  {
    DropTriggerOpen();
    hide Lex, Phrase, Laid, Fill, Parts, ReadDelivery, ReadStatement, Says, AllOpen;
    var f := FUNCTION_FORM;
    FormPlaces(f);
    Heads();
    var more := FormStart(f, [name], [Word("CREATE"), Word("OR")], Phrase(" REPLACE FUNCTION supadupa."));
    var start := Fill(Laid(f), [name]);
    var ts := start + [Dollar(body), END];
    assert ts == [Word("CREATE"), Word("OR")] + (more + [Dollar(body), END]);
    HeadWords(ts, "CREATE", "OR", more + [Dollar(body), END]);
    forall rest ensures ReadStatement(ts + rest) == Some((ReplaceFunction(name, ReadDelivery(body).value), rest)) {
      assert ts + rest == start + ([Dollar(body), END] + rest);
      PartsBack(f, [name], [Dollar(body), END] + rest, 1);
      FunctionRead(ts + rest, [name], body, rest);
    }
    SaysIf(ts, ReplaceFunction(name, ReadDelivery(body).value));
  }

  lemma GuardSays(body: string)
    requires ReadGuarded(body).Some?
    ensures Says([Word("DO"), Dollar(body), END], ReadGuarded(body).value)
  {
    hide Lex, Phrase, Laid, Parts, ReadGuarded;
    var ts := [Word("DO"), Dollar(body), END];
    forall rest ensures ReadStatement(ts + rest) == Some((ReadGuarded(body).value, rest)) {
      assert (ts + rest)[3..] == rest;
    }
  }
}
