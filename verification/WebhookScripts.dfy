/** Whole webhook scripts, lexed and read: what installs a webhook, and what removes it
    (internal/api/project_database_webhook_handlers.go:114-184). */
module WebhookScripts {
  import opened SqlText
  import opened SqlWords
  import opened SqlForms
  import opened WebhookReader
  import opened WebhookWords
  import opened WebhookMeaning
  import opened Wrappers
  import RoleReader
  import Create = WebhookCreateSql
  import Delete = WebhookSql

  // The guarded drop

  function GuardParts(trigger: string, schema: string, table: string): seq<(string, Piece)> {
    [(Delete.START, L(schema + "." + table)), (Delete.MIDDLE, L(Delete.DropTrigger(trigger, schema, table)))]
  }

  function DropParts(trigger: string, schema: string, table: string): seq<(string, Piece)> {
    [("DROP TRIGGER IF EXISTS ", Q(trigger)), (" ON ", Q(schema)), (".", Q(table))]
  }

  lemma GuardFollows(trigger: string, schema: string, table: string)
    ensures Follows(GuardParts(trigger, schema, table), Delete.END, GUARD_FORM)
    ensures Values(GuardParts(trigger, schema, table)) == [schema + "." + table, Delete.DropTrigger(trigger, schema, table)]
    ensures Weave(GuardParts(trigger, schema, table), Delete.END) == Delete.BodyPieces(trigger, schema, table)
  {
    hide Phrase, Delete.DropTrigger;
    var parts := GuardParts(trigger, schema, table);
    assert parts[1..] == [parts[1]] && parts[1..][1..] == [];
    assert Weave([], Delete.END) == [P(Delete.END)];
  }

  lemma DropFollows(trigger: string, schema: string, table: string, end: string)
    ensures Follows(DropParts(trigger, schema, table), end, DropTriggerForm(end))
    ensures Values(DropParts(trigger, schema, table)) == [trigger, schema, table]
    ensures Weave(DropParts(trigger, schema, table), end) == Delete.StatementPieces(trigger, schema, table) + [P(end)]
  {
    hide Phrase;
    var parts := DropParts(trigger, schema, table);
    assert parts[1..] == [parts[1], parts[2]] && parts[1..][1..] == [parts[2]] && parts[1..][1..][1..] == [];
    assert Weave([], end) == [P(end)];
    assert Weave([parts[2]], end) == [P("."), Q(table)] + [P(end)];
  }

  lemma NothingMore(ps: seq<Piece>)
    ensures Tokens(ps + [P("")]) == Tokens(ps)
  {
    RenderConcat(ps, [P("")]);
    LexPlain("", "");
    assert Tokens([P("")]) == TokensOf(P("")) + Tokens([]);
    assert Tokens(ps) + [] == Tokens(ps);
  }

  lemma GuardedRead(body: string, values: seq<string>, names: seq<string>)
    requires |values| == 2 && |names| == 3
    requires Parts(GUARD_FORM, Phrase(body), 2) == Some((values, []))
    requires Parts(DropTriggerForm(""), Phrase(values[1]), 3) == Some((names, []))
    ensures ReadGuarded(body) == Some(DropTriggerIf(values[0], names[0], names[1], names[2]))
  {
    hide Parts, Phrase, DropTriggerForm;
  }

  /** The block drops the trigger from the table, if there is a class of the table's name. */
  lemma GuardReads(trigger: string, schema: string, table: string)
    ensures ReadGuarded(Delete.Body(trigger, schema, table)) == Some(DropTriggerIf(schema + "." + table, trigger, schema, table))
  {
    hide *;
    var body, statement := Delete.Body(trigger, schema, table), Delete.DropTrigger(trigger, schema, table);
    Delete.InnerLevelsLex(trigger, schema, table);
    PhraseOf(body, Tokens(Delete.BodyPieces(trigger, schema, table)));
    PhraseOf(statement, Tokens(Delete.StatementPieces(trigger, schema, table)));
    GuardFollows(trigger, schema, table);
    WovenFills(GuardParts(trigger, schema, table), Delete.END, GUARD_FORM);
    DropFollows(trigger, schema, table, "");
    WovenFills(DropParts(trigger, schema, table), "", DropTriggerForm(""));
    NothingMore(Delete.StatementPieces(trigger, schema, table));
    PartsWhole(GUARD_FORM, [schema + "." + table, statement], 2);
    PartsWhole(DropTriggerForm(""), [trigger, schema, table], 3);
    GuardedRead(body, [schema + "." + table, statement], [trigger, schema, table]);
  }

  lemma PhraseOf(text: string, ts: seq<Token>)
    requires Lex(text) == Some(ts)
    ensures Phrase(text) == ts
  {}

  lemma PartsWhole(f: Form, values: seq<string>, n: nat)
    requires |values| == Places(Laid(f)) == n
    ensures Parts(f, Fill(Laid(f), values), n) == Some((values, []))
  {
    hide *;
    PartsBack(f, values, [], n);
    OneLess(Fill(Laid(f), values));
  }

  // The trigger function

  lemma BodyPartsAre(headers: string, endpoint: string)
    ensures Create.BodyParts(headers, endpoint) == [
      (DECLARED, L(headers)), (OPENED, L("type")), (", TG_OP,\n    ", L("table")), (", TG_TABLE_NAME,\n    ", L("schema")),
      (", TG_TABLE_SCHEMA,\n    ", L("record")), (", CASE WHEN TG_OP = ", L("DELETE")),
      (" THEN NULL ELSE to_jsonb(NEW) END,\n    ", L("old_record")), (", CASE WHEN TG_OP IN (", L("UPDATE")), (", ", L("DELETE")),
      (POSTED, L(endpoint))]
  {}

  lemma BodyFollows(headers: string, endpoint: string, timeoutSeconds: int)
    ensures Follows(Create.BodyParts(headers, endpoint), Create.BodyEnd(timeoutSeconds), BodyForm(Itoa(timeoutSeconds * 1000)))
    ensures Values(Create.BodyParts(headers, endpoint)) == [headers] + KEYS + [endpoint]
  {
    hide Phrase, Itoa;
    BodyPartsAre(headers, endpoint);
    assert Create.BodyEnd(timeoutSeconds) == ARGUMENTS + (Itoa(timeoutSeconds * 1000) + RETURNED);
  }

  lemma TailTexts()
    ensures Plain(ARGUMENTS) && ARGUMENTS != "" && Blank(ARGUMENTS[|ARGUMENTS| - 1])
    ensures Plain(RETURNED) && Ends(RETURNED)
  {
    Create.TimeoutPlain();
    Create.ReturnPlain();
    assert ARGUMENTS == Create.TIMEOUT && RETURNED == Create.RETURN;
    assert RETURNED[0] == '\n';
  }

  lemma NumberPlain(n: nat)
    ensures Itoa(n) != "" && AllWord(Itoa(n)) && RoleReader.AllDigits(Itoa(n)) && RoleReader.Value(Itoa(n)) == n && Plain(Itoa(n))
  {
    RoleReader.DigitsBack(n);
    hide Digits;
  }

  lemma PlainBoth(a: string, b: string)
    requires Plain(a) && Plain(b)
    ensures Plain(a + b)
  {}

  lemma NumberPhrase(digits: string)
    requires digits != "" && AllWord(digits) && Plain(digits)
    ensures Phrase(ARGUMENTS + (digits + RETURNED)) == Phrase(ARGUMENTS) + ([Word(digits)] + Phrase(RETURNED))
  {
    TailTexts();
    hide *;
    PlainBoth(digits, RETURNED);
    PhraseConcat(ARGUMENTS, digits + RETURNED);
    PhraseWord(digits, RETURNED);
  }

  lemma WordFound(front: seq<Token>, word: string, end: seq<Token>)
    ensures WordBefore(front + ([Word(word)] + end), end) == word
  {}

  lemma DeliveryRead(body: string, digits: string, values: seq<string>)
    requires |values| == 10 && WordBefore(Phrase(body), Phrase(RETURNED)) == digits && digits != "" && RoleReader.AllDigits(digits)
    requires Parts(BodyForm(digits), Phrase(body), 10) == Some((values, [])) && values[1..9] == KEYS
    ensures ReadDelivery(body) == Some(Delivery(values[0], values[9], RoleReader.Value(digits)))
  {
    hide Parts, Phrase, BodyForm, RoleReader.AllDigits, RoleReader.Value, WordBefore;
  }

  lemma BodyOpen(digits: string)
    ensures AllOpen(BodyForm(digits)) && |BodyForm(digits).parts| == 10 && BodyForm(digits).last == ARGUMENTS + (digits + RETURNED)
  {}

  lemma TenValues(headers: string, endpoint: string)
    ensures var values := [headers] + KEYS + [endpoint];
            |values| == 10 && values[0] == headers && values[1..9] == KEYS && values[9] == endpoint
  {}

  /** The function posts its payload to the endpoint, with the headers, and waits the given seconds. */
  lemma DeliveryReads(headers: string, w: Create.Webhook)
    requires w.timeoutSeconds >= 0
    ensures ReadDelivery(Create.FunctionBody(headers, w)) == Some(Delivery(headers, w.endpoint, w.timeoutSeconds * 1000))
  {
    var ms := w.timeoutSeconds * 1000;
    NumberPlain(ms);
    hide *;
    var body, parts, end := Create.FunctionBody(headers, w), Create.BodyParts(headers, w.endpoint), Create.BodyEnd(w.timeoutSeconds);
    var digits, values := Itoa(ms), [headers] + KEYS + [w.endpoint];
    var f := BodyForm(digits);
    Create.BodyLexes(headers, w);
    PhraseOf(body, Tokens(Weave(parts, end)));
    BodyFollows(headers, w.endpoint, w.timeoutSeconds);
    WovenFills(parts, end, f);
    BodyOpen(digits);
    TenValues(headers, w.endpoint);
    FormPlaces(f);
    var front := FillEnd(f, values);
    NumberPhrase(digits);
    assert front + (Phrase(ARGUMENTS) + ([Word(digits)] + Phrase(RETURNED))) == (front + Phrase(ARGUMENTS)) + ([Word(digits)] + Phrase(RETURNED));
    WordFound(front + Phrase(ARGUMENTS), digits, Phrase(RETURNED));
    PartsWhole(f, values, 10);
    DeliveryRead(body, digits, values);
  }

  // Removing

  /** What removes a webhook: the trigger of each event, in order, and then the function. */
  function TriggersOff(w: Delete.Webhook, events: seq<string>): seq<Statement> {
    if events == [] then []
    else
      var e := events[|events| - 1];
      TriggersOff(w, events[..|events| - 1]) + [DropTriggerIf(w.schema + "." + w.table, Delete.TriggerName(w, e), w.schema, w.table)]
  }

  function Removal(w: Delete.Webhook): seq<Statement> {
    TriggersOff(w, w.events) + [DropFunction(Delete.FunctionName(w))]
  }

  lemma ThreeTokens(a: string, tag: string, body: string, b: string)
    ensures Tokens([P(a), D(tag, body), P(b)]) == Phrase(a) + ([Dollar(body)] + Phrase(b))
  {
    hide Phrase, Lex;
    assert TokensOf(P(a)) == Phrase(a) && TokensOf(P(b)) == Phrase(b) by { PieceTokens(a); PieceTokens(b); }
    assert TokensOf(D(tag, body)) == [Dollar(body)];
    hide TokensOf;
    RenderCons(P(b), []);
    RenderCons(D(tag, body), [P(b)]);
    RenderCons(P(a), [D(tag, body), P(b)]);
    assert [P(b)] + [] == [P(b)] && [D(tag, body)] + [P(b)] == [D(tag, body), P(b)];
    assert [P(a)] + [D(tag, body), P(b)] == [P(a), D(tag, body), P(b)];
    assert Tokens([]) == [] && Phrase(b) + [] == Phrase(b);
  }

  lemma PieceTokens(text: string)
    ensures TokensOf(P(text)) == Phrase(text)
  {}

  lemma DoPhrase()
    ensures Phrase("DO ") == [Word("DO")] && Phrase(";\n") == [END]
  {
    HeadWordsPlain();
    MoreRestsPlain();
    BlankHeads();
    EndIs();
    BlankPhrase();
    assert "DO" + " " == "DO ";
    hide Lex, AllWord, Plain, Ends;
    PhraseOf(";\n", [END]);
    PhraseWord("DO", " ");
  }

  lemma BlockTokens(body: string)
    ensures Tokens(Delete.BlockPieces(body)) == [Word("DO"), Dollar(body), END]
  {
    ThreeTokens("DO ", Delete.TAG, body, ";\n");
    DoPhrase();
    hide Phrase, Tokens;
  }

  lemma TriggersOffStep(w: Delete.Webhook, events: seq<string>, event: string)
    ensures TriggersOff(w, events + [event])
            == TriggersOff(w, events) + [DropTriggerIf(w.schema + "." + w.table, Delete.TriggerName(w, event), w.schema, w.table)]
    ensures TriggersOff(w, []) == []
  {
    assert (events + [event])[..|events|] == events;
  }

  lemma NoTokens()
    ensures Tokens([]) == []
  {}

  lemma {:induction false} TriggersOffSaid(w: Delete.Webhook, events: seq<string>)
    ensures SaysAll(Tokens(Delete.DeletePieces(w, events)), TriggersOff(w, events))
  {
    hide *;
    if events == [] {
      Delete.DeleteStep(w, [], "");
      TriggersOffStep(w, [], "");
      NoTokens();
      SaysNothing();
      return;
    }
    var before, e := events[..|events| - 1], events[|events| - 1];
    assert events == before + [e];
    var trigger := Delete.TriggerName(w, e);
    var body := Delete.Body(trigger, w.schema, w.table);
    TriggersOffSaid(w, before);
    Delete.DeleteStep(w, before, e);
    TriggersOffStep(w, before, e);
    RenderConcat(Delete.DeletePieces(w, before), Delete.BlockPieces(body));
    BlockTokens(body);
    GuardReads(trigger, w.schema, w.table);
    GuardSays(body);
    SaysOne([Word("DO"), Dollar(body), END], ReadGuarded(body).value);
    SaysMore(Tokens(Delete.DeletePieces(w, before)), TriggersOff(w, before), [Word("DO"), Dollar(body), END], [ReadGuarded(body).value]);
  }

  function FunctionParts(name: string): seq<(string, Piece)> { [("DROP FUNCTION IF EXISTS supadupa.", Q(name))] }

  lemma FunctionFollows(w: Delete.Webhook)
    ensures Follows(FunctionParts(Delete.FunctionName(w)), "();\n", DROP_FUNCTION_FORM)
    ensures Values(FunctionParts(Delete.FunctionName(w))) == [Delete.FunctionName(w)]
    ensures Weave(FunctionParts(Delete.FunctionName(w)), "();\n") == Delete.FunctionPieces(w)
  {
    hide Phrase, Delete.FunctionName;
    var parts := FunctionParts(Delete.FunctionName(w));
    assert parts[1..] == [];
  }

  lemma FunctionOffSaid(w: Delete.Webhook)
    ensures SaysAll(Tokens(Delete.FunctionPieces(w)), [DropFunction(Delete.FunctionName(w))])
  {
    hide *;
    var name := Delete.FunctionName(w);
    FunctionFollows(w);
    WovenFills(FunctionParts(name), "();\n", DROP_FUNCTION_FORM);
    DropFunctionSays(name);
    SaysOne(Fill(Laid(DROP_FUNCTION_FORM), [name]), DropFunction(name));
  }

  lemma RemovalIs(w: Delete.Webhook)
    ensures Removal(w) == TriggersOff(w, w.events) + [DropFunction(Delete.FunctionName(w))]
  {}

  /** The delete script drops each event's trigger from the table, and then the function. */
  lemma DeleteMeans(w: Delete.Webhook)
    requires Delete.AllTagFree(w, w.events)
    ensures var text := Delete.DropBlocks(w, w.events) + Delete.DropFunction(w);
            Lex(text) == Some(Phrase(text)) && ReadScript(Phrase(text)) == Some(Removal(w))
  {
    hide *;
    var text := Delete.DropBlocks(w, w.events) + Delete.DropFunction(w);
    var ps, fs := Delete.DeletePieces(w, w.events), Delete.FunctionPieces(w);
    Delete.DeleteTextLexesIff(w);
    PhraseOf(text, Tokens(ps + fs));
    RenderConcat(ps, fs);
    TriggersOffSaid(w, w.events);
    FunctionOffSaid(w);
    SaysMore(Tokens(ps), TriggersOff(w, w.events), Tokens(fs), [DropFunction(Delete.FunctionName(w))]);
    RemovalIs(w);
    ReadSaid(Tokens(ps) + Tokens(fs), Removal(w));
  }

  // Installing

  /** What installs a webhook's triggers: for each event in order, any trigger of its name is dropped
      and one is created that fires after the event on the table and calls the function. */
  function TriggersOn(w: Create.Webhook, events: seq<string>): seq<Statement> {
    if events == [] then []
    else
      var e := events[|events| - 1];
      var trigger := Create.TriggerName(w, e);
      TriggersOn(w, events[..|events| - 1])
      + [DropTrigger(trigger, w.schema, w.table),
         CreateTrigger(trigger, Create.ToUpper(e), w.schema, w.table, Create.FunctionName(w))]
  }

  function Installation(w: Create.Webhook, headers: string): seq<Statement> {
    [EnsureSchema, EnsureExtension,
     ReplaceFunction(Create.FunctionName(w), Delivery(headers, w.endpoint, w.timeoutSeconds * 1000))]
    + TriggersOn(w, w.events)
  }

  function TriggerFormParts(event: string): seq<(string, Place)> {
    [("DROP TRIGGER IF EXISTS ", AName), (" ON ", AName), (".", AName), (";\nCREATE TRIGGER ", AName),
     ("\nAFTER " + event + " ON ", AName), (".", AName), (EXECUTE, AName)]
  }

  lemma TriggerFollows(w: Create.Webhook, event: string)
    ensures Follows(Create.TriggerParts(w, event), Create.CALL, Form(TriggerFormParts(Create.ToUpper(event)), "();\n"))
    ensures var t := Create.TriggerName(w, event);
            Values(Create.TriggerParts(w, event)) == [t, w.schema, w.table, t, w.schema, w.table, Create.FunctionName(w)]
  {
    hide Phrase, Create.TriggerName, Create.FunctionName, Create.ToUpper;
  }

  lemma TriggerFormOpen(event: string)
    ensures var f := Form(TriggerFormParts(event), "();\n");
            && AllOpen(f) && |f.parts| == 7 && f.parts[..3] == DropTriggerForm(";\n").parts
            && f.parts[3] == (";\nCREATE TRIGGER ", AName) && f.parts[4..] == TriggerForm(event).parts[1..]
            && TriggerForm(event).last == "();\n" && AllOpen(TriggerForm(event)) && |TriggerForm(event).parts| == 4
            && TriggerForm(event).parts[0] == ("CREATE TRIGGER ", AName)
            && AllOpen(DropTriggerForm(";\n")) && |DropTriggerForm(";\n").parts| == 3 && DropTriggerForm(";\n").last == ";\n"
  {}

  lemma CreateTriggerPhrase()
    ensures Phrase(";\nCREATE TRIGGER ") == Phrase(";\n") + Phrase("CREATE TRIGGER ")
  {
    SemicolonText();
    hide Lex, Plain;
    PhraseConcat(";\n", "CREATE TRIGGER ");
  }

  lemma SemicolonText()
    ensures ";\n" + "CREATE TRIGGER " == ";\nCREATE TRIGGER " && Plain(";\n") && Plain("CREATE TRIGGER ")
  {}

  lemma TailForms(f: Form)
    requires |f.parts| == 7
    ensures f.parts[1..][1..] == f.parts[2..] && f.parts[2..][1..] == f.parts[3..] && f.parts[3..][1..] == f.parts[4..]
    ensures f.parts[1..][0] == f.parts[1] && f.parts[2..][0] == f.parts[2] && f.parts[3..][0] == f.parts[3]
  {}

  lemma DropParts3(f: Form)
    requires |f.parts| == 3
    ensures f.parts[1..][1..] == f.parts[2..] && f.parts[2..][1..] == []
    ensures f.parts[1..][0] == f.parts[1] && f.parts[2..][0] == f.parts[2]
  {}

  /** A trigger's text is a drop and a create. */
  lemma TwoStatements(event: string, t: string, s: string, b: string, name: string)
    ensures var f := Form(TriggerFormParts(event), "();\n");
            && Places(Laid(f)) == 7 && Places(Laid(DropTriggerForm(";\n"))) == 3 && Places(Laid(TriggerForm(event))) == 4
            && Fill(Laid(f), [t, s, b, t, s, b, name])
               == Fill(Laid(DropTriggerForm(";\n")), [t, s, b]) + Fill(Laid(TriggerForm(event)), [t, s, b, name])
  {
    hide *;
    var f, drop, create := Form(TriggerFormParts(event), "();\n"), DropTriggerForm(";\n"), TriggerForm(event);
    TriggerFormOpen(event);
    FormPlaces(f);
    FormPlaces(drop);
    FormPlaces(create);
    TailForms(f);
    DropParts3(drop);
    assert f.parts[..3][0] == f.parts[0] && f.parts[..3][1] == f.parts[1] && f.parts[..3][2] == f.parts[2];
    var last, later := [t, s, b, name], [s, b, name];
    FirstPart(f, t, [s, b] + last);
    FirstPart(Form(f.parts[1..], f.last), s, [b] + last);
    FirstPart(Form(f.parts[2..], f.last), b, last);
    FirstPart(Form(f.parts[3..], f.last), t, later);
    FirstPart(drop, t, [s, b]);
    FirstPart(Form(drop.parts[1..], drop.last), s, [b]);
    FirstPart(Form(drop.parts[2..], drop.last), b, []);
    LastPart(drop.last);
    FirstPart(create, t, later);
    CreateTriggerPhrase();
    assert [t] + ([s, b] + last) == [t, s, b, t, s, b, name] && [s] + ([b] + last) == [s, b] + last;
    assert [t] + later == last && [t] + [s, b] == [t, s, b] && [s] + [b] == [s, b] && [b] + [] == [b];
    var tail := Fill(Laid(Form(create.parts[1..], create.last)), later);
    var p0, p1, p2 := Phrase(f.parts[0].0), Phrase(f.parts[1].0), Phrase(f.parts[2].0);
    NameToken(t);
    NameToken(s);
    NameToken(b);
    SevenRegroup(p0, [Ident(t)], p1, [Ident(s)], p2, [Ident(b)], Phrase(";\n"), Phrase("CREATE TRIGGER "), [Ident(t)] + tail);
  }

  lemma SevenRegroup<T>(a: seq<T>, b: seq<T>, c: seq<T>, d: seq<T>, e: seq<T>, f: seq<T>, g: seq<T>, h: seq<T>, i: seq<T>)
    ensures a + (b + (c + (d + (e + (f + (g + h + i)))))) == a + (b + (c + (d + (e + (f + g))))) + (h + i)
  {}

  lemma TriggerSaid(w: Create.Webhook, event: string)
    requires EventWord(Create.ToUpper(event))
    ensures var t := Create.TriggerName(w, event);
            SaysAll(Tokens(Weave(Create.TriggerParts(w, event), Create.CALL)),
                    [DropTrigger(t, w.schema, w.table)] + [CreateTrigger(t, Create.ToUpper(event), w.schema, w.table, Create.FunctionName(w))])
  {
    hide *;
    var t, name, upper := Create.TriggerName(w, event), Create.FunctionName(w), Create.ToUpper(event);
    TriggerFollows(w, event);
    WovenFills(Create.TriggerParts(w, event), Create.CALL, Form(TriggerFormParts(upper), "();\n"));
    TwoStatements(upper, t, w.schema, w.table, name);
    DropTriggerSays(t, w.schema, w.table);
    TriggerSays(upper, t, w.schema, w.table, name);
    var a, b := Fill(Laid(DropTriggerForm(";\n")), [t, w.schema, w.table]), Fill(Laid(TriggerForm(upper)), [t, w.schema, w.table, name]);
    SaysOne(a, DropTrigger(t, w.schema, w.table));
    SaysOne(b, CreateTrigger(t, upper, w.schema, w.table, name));
    SaysMore(a, [DropTrigger(t, w.schema, w.table)], b, [CreateTrigger(t, upper, w.schema, w.table, name)]);
  }

  lemma TriggersOnStep(w: Create.Webhook, events: seq<string>, event: string)
    ensures var t := Create.TriggerName(w, event);
            TriggersOn(w, events + [event])
            == TriggersOn(w, events)
               + ([DropTrigger(t, w.schema, w.table)] + [CreateTrigger(t, Create.ToUpper(event), w.schema, w.table, Create.FunctionName(w))])
    ensures TriggersOn(w, []) == []
  {
    hide Create.TriggerName, Create.FunctionName, Create.ToUpper;
    assert (events + [event])[..|events|] == events;
  }

  ghost predicate EventWords(events: seq<string>) { forall e :: e in events ==> EventWord(Create.ToUpper(e)) && Plain(e) }

  lemma EventWordsStep(events: seq<string>)
    requires EventWords(events) && events != []
    ensures EventWord(Create.ToUpper(events[|events| - 1])) && EventWords(events[..|events| - 1])
  {
    hide Plain, EventWord, Create.ToUpper;
    assert events[|events| - 1] in events;
  }

  lemma NoTriggerPieces(w: Create.Webhook)
    ensures Create.TriggerPieces(w, []) == []
  {}

  lemma {:induction false} TriggersOnSaid(w: Create.Webhook, events: seq<string>)
    requires EventWords(events)
    ensures SaysAll(Tokens(Create.TriggerPieces(w, events)), TriggersOn(w, events))
  {
    hide *;
    if events == [] {
      NoTriggerPieces(w);
      TriggersOnStep(w, [], "");
      NoTokens();
      SaysNothing();
      return;
    }
    var before, e := events[..|events| - 1], events[|events| - 1];
    assert events == before + [e];
    EventWordsStep(events);
    TriggersOnSaid(w, before);
    Create.TriggersStep(w, before, e);
    TriggersOnStep(w, before, e);
    var ps := Weave(Create.TriggerParts(w, e), Create.CALL);
    RenderConcat(Create.TriggerPieces(w, before), ps);
    TriggerSaid(w, e);
    var t := Create.TriggerName(w, e);
    SaysMore(Tokens(Create.TriggerPieces(w, before)), TriggersOn(w, before), Tokens(ps),
             [DropTrigger(t, w.schema, w.table)] + [CreateTrigger(t, Create.ToUpper(e), w.schema, w.table, Create.FunctionName(w))]);
  }

  // The function's text

  lemma CreatePhrase()
    ensures Phrase(Create.CREATE)
            == Phrase("CREATE SCHEMA IF NOT EXISTS supadupa;\n") + Phrase("CREATE EXTENSION IF NOT EXISTS pg_net;\n")
               + Phrase("CREATE OR REPLACE FUNCTION supadupa.")
  {
    Create.SchemaPlain();
    ReplacePlain();
    SchemaExtension();
    assert Create.CREATE == "CREATE SCHEMA IF NOT EXISTS supadupa;\n" + "CREATE EXTENSION IF NOT EXISTS pg_net;\n" + "CREATE OR REPLACE FUNCTION supadupa.";
    hide *;
    var a, b, c := "CREATE SCHEMA IF NOT EXISTS supadupa;\n", "CREATE EXTENSION IF NOT EXISTS pg_net;\n", "CREATE OR REPLACE FUNCTION supadupa.";
    PhraseConcat(a, b);
    PhraseConcat(a + b, c);
  }

  lemma ReplacePlain()
    ensures Plain("CREATE OR REPLACE FUNCTION supadupa.")
  {}

  lemma SchemaExtension()
    ensures var a, b := "CREATE SCHEMA IF NOT EXISTS supadupa;\n", "CREATE EXTENSION IF NOT EXISTS pg_net;\n";
            && a != "" && Blank(a[|a| - 1]) && Plain(a + b) && Blank((a + b)[|a + b| - 1]) && a + b != ""
  {
    Create.SchemaPlain();
    var a, b := "CREATE SCHEMA IF NOT EXISTS supadupa;\n", "CREATE EXTENSION IF NOT EXISTS pg_net;\n";
    PlainConcat(a, b);
    assert a[|a| - 1] == '\n' && b[|b| - 1] == '\n' && (a + b)[|a + b| - 1] == b[|b| - 1];
  }

  lemma HeadTokens(name: string)
    ensures Places(Laid(FUNCTION_FORM)) == 1
    ensures Tokens(Weave([(Create.CREATE, Q(name))], Create.RETURNS))
            == Phrase("CREATE SCHEMA IF NOT EXISTS supadupa;\n")
               + (Phrase("CREATE EXTENSION IF NOT EXISTS pg_net;\n") + Fill(Laid(FUNCTION_FORM), [name]))
  {
    CreatePhrase();
    FunctionFill(name);
    HeadWoven(name);
    hide *;
    HeadRegroup(Phrase("CREATE SCHEMA IF NOT EXISTS supadupa;\n"), Phrase("CREATE EXTENSION IF NOT EXISTS pg_net;\n"),
                Phrase("CREATE OR REPLACE FUNCTION supadupa."), [Ident(name)] + Phrase(OPTIONS));
  }

  lemma HeadRegroup<T>(a: seq<T>, b: seq<T>, c: seq<T>, d: seq<T>)
    ensures a + b + c + d == a + (b + (c + d))
  {}

  lemma FunctionFill(name: string)
    ensures Places(Laid(FUNCTION_FORM)) == 1
    ensures Fill(Laid(FUNCTION_FORM), [name]) == Phrase("CREATE OR REPLACE FUNCTION supadupa.") + ([Ident(name)] + Phrase(OPTIONS))
  {
    DropTriggerOpen();
    hide Lex, Phrase, Laid, Fill, AllOpen;
    FirstPart(FUNCTION_FORM, name, []);
    LastPart(OPTIONS);
    assert [name] + [] == [name];
    assert Form(FUNCTION_FORM.parts[1..], FUNCTION_FORM.last) == Form([], OPTIONS);
  }

  lemma HeadWoven(name: string)
    ensures Tokens(Weave([(Create.CREATE, Q(name))], Create.RETURNS)) == Phrase(Create.CREATE) + ([Ident(name)] + Phrase(OPTIONS))
  {
    hide Phrase, Lex;
    var parts := [(Create.CREATE, Q(name))];
    assert parts[1..] == [] && Weave([], Create.RETURNS) == [P(Create.RETURNS)] && OPTIONS == Create.RETURNS;
    PieceTokens(Create.RETURNS);
    assert [P(Create.RETURNS)][1..] == [];
    assert Tokens([P(Create.RETURNS)]) == Phrase(OPTIONS) by { assert Phrase(OPTIONS) + [] == Phrase(OPTIONS); }
    assert Suits(Q(name), AName);
    TwoTokens(Create.CREATE, Q(name), AName, [P(Create.RETURNS)]);
  }

  lemma AfterBody(head: seq<Piece>, tag: string, body: string, rest: seq<Piece>)
    ensures Tokens(head + [D(tag, body)] + ([P(";\n")] + rest)) == (Tokens(head) + [Dollar(body), END]) + Tokens(rest)
  {
    DoPhrase();
    PieceTokens(";\n");
    assert TokensOf(D(tag, body)) == [Dollar(body)];
    hide *;
    RenderConcat(head + [D(tag, body)], [P(";\n")] + rest);
    RenderConcat(head, [D(tag, body)]);
    RenderCons(D(tag, body), []);
    RenderCons(P(";\n"), rest);
    NoTokens();
    assert [D(tag, body)] + [] == [D(tag, body)] && [Dollar(body)] + [] == [Dollar(body)];
    assert (Tokens(head) + [Dollar(body)]) + ([END] + Tokens(rest)) == (Tokens(head) + [Dollar(body), END]) + Tokens(rest);
  }

  lemma InstallationIs(w: Create.Webhook, headers: string)
    ensures Installation(w, headers)
            == [EnsureSchema] + ([EnsureExtension]
               + [ReplaceFunction(Create.FunctionName(w), Delivery(headers, w.endpoint, w.timeoutSeconds * 1000))])
               + TriggersOn(w, w.events)
  {}

  lemma PlainEvents(events: seq<string>)
    requires EventWords(events)
    ensures forall e :: e in events ==> Plain(e)
  {
    hide Plain, EventWord;
  }

  lemma HeadSaid(name: string, body: string)
    requires ReadDelivery(body).Some?
    ensures SaysAll(Tokens(Weave([(Create.CREATE, Q(name))], Create.RETURNS)) + [Dollar(body), END],
                    [EnsureSchema] + ([EnsureExtension] + [ReplaceFunction(name, ReadDelivery(body).value)]))
  {
    hide *;
    HeadTokens(name);
    var a, b := Phrase("CREATE SCHEMA IF NOT EXISTS supadupa;\n"), Phrase("CREATE EXTENSION IF NOT EXISTS pg_net;\n");
    var f, end := Fill(Laid(FUNCTION_FORM), [name]), [Dollar(body), END];
    HeadEnd(a, b, f, end);
    var replace := ReplaceFunction(name, ReadDelivery(body).value);
    SchemaSays();
    ExtensionSays();
    FunctionSays(name, body);
    SaysOne(a, EnsureSchema);
    SaysOne(b, EnsureExtension);
    SaysOne(f + end, replace);
    SaysMore(b, [EnsureExtension], f + end, [replace]);
    SaysMore(a, [EnsureSchema], b + (f + end), [EnsureExtension] + [replace]);
  }

  lemma HeadEnd<T>(a: seq<T>, b: seq<T>, f: seq<T>, end: seq<T>)
    ensures a + (b + f) + end == a + (b + (f + end))
  {}

  /** The create script makes sure of the schema and the extension, replaces the function by one that
      posts to the endpoint with the headers, and for each event recreates the trigger. */
  lemma CreateMeans(w: Create.Webhook, headers: string)
    requires Create.TagFree(headers, w) && EventWords(w.events) && w.timeoutSeconds >= 0
    ensures var text := Create.CreateText(w, headers);
            Lex(text) == Some(Phrase(text)) && ReadScript(Phrase(text)) == Some(Installation(w, headers))
  {
    PlainEvents(w.events);
    hide *;
    var body, name, triggers := Create.FunctionBody(headers, w), Create.FunctionName(w), Create.TriggerPieces(w, w.events);
    var head := Weave([(Create.CREATE, Q(name))], Create.RETURNS);
    Create.CreateTextLexesIff(w, headers);
    PhraseOf(Create.CreateText(w, headers), Tokens(Create.CreatePieces(w, headers)));
    TagIs(w, headers, head, body, triggers);
    AfterBody(head, Create.TAG, body, triggers);
    DeliveryReads(headers, w);
    HeadSaid(name, body);
    TriggersOnSaid(w, w.events);
    SaysMore(Tokens(head) + [Dollar(body), END], [EnsureSchema] + ([EnsureExtension] + [ReplaceFunction(name, ReadDelivery(body).value)]),
             Tokens(triggers), TriggersOn(w, w.events));
    InstallationIs(w, headers);
    ReadSaid(Tokens(Create.CreatePieces(w, headers)), Installation(w, headers));
  }

  lemma TagIs(w: Create.Webhook, headers: string, head: seq<Piece>, body: string, triggers: seq<Piece>)
    requires head == Weave([(Create.CREATE, Q(Create.FunctionName(w)))], Create.RETURNS)
    requires body == Create.FunctionBody(headers, w) && triggers == Create.TriggerPieces(w, w.events)
    ensures Create.CreatePieces(w, headers) == head + [D(Create.TAG, body)] + ([P(";\n")] + triggers)
  {
    Create.CreateTextParts(w, headers);
  }
}
