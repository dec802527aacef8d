/** The SQL that removes a database webhook
    (internal/api/project_database_webhook_handlers.go): names are quoted inside a statement
    that is itself a literal inside a dollar-quoted block. */
module WebhookSql {
  import opened Text
  import opened SqlText
  import opened Wrappers

  datatype Webhook = Webhook(name: string, schema: string, table: string, events: seq<string>, active: bool)

  function DashToUnderscore(s: string): string {
    seq(|s|, i requires 0 <= i < |s| => if s[i] == '-' then '_' else s[i])
  }

  function FunctionName(w: Webhook): string { "webhook_" + DashToUnderscore(w.name) }

  function TriggerName(w: Webhook, event: string): string {
    "supadupa_webhook_" + DashToUnderscore(w.name) + "_" + ToLower(event)
  }

  const TAG := "drop_webhook"

  const START := "\nBEGIN\n  IF to_regclass("
  const MIDDLE := ") IS NOT NULL THEN\n    EXECUTE "
  const END := ";\n  END IF;\nEND\n"

  /** The statement that the block executes. */
  function DropTrigger(trigger: string, schema: string, table: string): string {
    "DROP TRIGGER IF EXISTS " + QuoteDatabaseIdentifier(trigger) + " ON "
    + (QuoteDatabaseIdentifier(schema) + "." + QuoteDatabaseIdentifier(table))
  }

  function Body(trigger: string, schema: string, table: string): string {
    START + QuoteDatabaseLiteral(schema + "." + table) + MIDDLE + QuoteDatabaseLiteral(DropTrigger(trigger, schema, table)) + END
  }

  function DropBlock(trigger: string, schema: string, table: string): string {
    "DO " + (Delimiter(TAG) + Body(trigger, schema, table) + Delimiter(TAG)) + ";\n"
  }

  function DropBlocks(w: Webhook, events: seq<string>): string {
    if events == [] then ""
    else DropBlocks(w, events[..|events| - 1]) + DropBlock(TriggerName(w, events[|events| - 1]), w.schema, w.table)
  }

  function DropFunction(w: Webhook): string {
    "DROP FUNCTION IF EXISTS supadupa." + QuoteDatabaseIdentifier(FunctionName(w)) + "();\n"
  }

  method ApplyProjectDatabaseWebhookDelete(w: Webhook) returns (applied: Option<string>)
    ensures applied == if w.active then Some(DropBlocks(w, w.events) + DropFunction(w)) else None
  {
    if !w.active { return None; }
    hide DropBlock, TriggerName, DropFunction;
    var tableName := QuoteDatabaseIdentifier(w.schema) + "." + QuoteDatabaseIdentifier(w.table);
    var sql := "";
    for i := 0 to |w.events|
      invariant sql == DropBlocks(w, w.events[..i])
    {
      var block := EventBlock(TriggerName(w, w.events[i]), w.schema, w.table, tableName);
      sql := sql + block;
      assert w.events[..i + 1][..i] == w.events[..i];
    }
    assert w.events[..|w.events|] == w.events;
    return Some(sql + DropFunction(w));
  }

  method EventBlock(trigger: string, schema: string, table: string, tableName: string) returns (block: string)
    requires tableName == QuoteDatabaseIdentifier(schema) + "." + QuoteDatabaseIdentifier(table)
    ensures block == DropBlock(trigger, schema, table)
  {
    var statement := "DROP TRIGGER IF EXISTS " + QuoteDatabaseIdentifier(trigger) + " ON " + tableName;
    assert statement == DropTrigger(trigger, schema, table);
    hide QuoteDatabaseLiteral, DropTrigger, DropBlock;
    block := ("DO " + "$drop_webhook$" + "\nBEGIN\n  IF to_regclass(") + QuoteDatabaseLiteral(schema + "." + table)
      + ") IS NOT NULL THEN\n    EXECUTE " + QuoteDatabaseLiteral(statement) + (";\n  END IF;\nEND\n" + "$drop_webhook$" + ";\n");
    BlockText(trigger, schema, table, block);
  }

  lemma BlockText(trigger: string, schema: string, table: string, block: string)
    requires block == ("DO " + "$drop_webhook$" + "\nBEGIN\n  IF to_regclass(") + QuoteDatabaseLiteral(schema + "." + table)
        + ") IS NOT NULL THEN\n    EXECUTE " + QuoteDatabaseLiteral(DropTrigger(trigger, schema, table))
        + (";\n  END IF;\nEND\n" + "$drop_webhook$" + ";\n")
    ensures block == DropBlock(trigger, schema, table)
  {
    hide QuoteDatabaseLiteral, DropTrigger;
    var open, d, close := "DO ", "$drop_webhook$", ";\n";
    var start, end := "\nBEGIN\n  IF to_regclass(", ";\n  END IF;\nEND\n";
    DelimiterText();
    Regroup(open, d, start, QuoteDatabaseLiteral(schema + "." + table), ") IS NOT NULL THEN\n    EXECUTE ",
            QuoteDatabaseLiteral(DropTrigger(trigger, schema, table)), end, close);
  }

  lemma DelimiterText()
    ensures Delimiter(TAG) == "$drop_webhook$"
  {}

  lemma Regroup(open: string, d: string, start: string, x: string, mid: string, y: string, end: string, close: string)
    ensures (open + d + start) + x + mid + y + (end + d + close) == open + (d + (start + x + mid + y + end) + d) + close
  {}

  // The block is read back as intended

  /** The tag occurs in none of the names. */
  ghost predicate TagFree(trigger: string, schema: string, table: string) {
    !Contains(trigger, Delimiter(TAG)) && !Contains(schema, Delimiter(TAG)) && !Contains(table, Delimiter(TAG))
  }

  lemma DelimiterChars()
    ensures '$' in Delimiter(TAG) && Delimiter(TAG) != ""
    ensures forall c :: c == '"' || c == '\'' || c == '.' || c == '\n' ==> c !in Delimiter(TAG)
  {
    assert Delimiter(TAG) == "$drop_webhook$";
    assert Delimiter(TAG)[0] == '$';
  }

  lemma StatementContains(trigger: string, schema: string, table: string)
    ensures Contains(DropTrigger(trigger, schema, table), Delimiter(TAG)) <==> !TagFree(trigger, schema, table)
  {
    var t := Delimiter(TAG);
    DelimiterChars();
    var head, on, dot := "DROP TRIGGER IF EXISTS ", " ON ", ".";
    NothingContains(head, '$', t);
    NothingContains(on, '$', t);
    NothingContains(dot, '$', t);
    NothingContains("", '$', t);
    hide Contains, Quote;
    var qs, qb := Quote(schema, '"'), Quote(table, '"');
    ContainsQuoted(dot, table, '"', "", t);
    ContainsQuoted(on, schema, '"', dot + qb + "", t);
    ContainsQuoted(head, trigger, '"', on + qs + (dot + qb + ""), t);
    assert DropTrigger(trigger, schema, table) == head + Quote(trigger, '"') + (on + qs + (dot + qb + ""));
  }

  lemma BodyContains(trigger: string, schema: string, table: string)
    ensures Body(trigger, schema, table) == BodyStart(trigger, schema, table) + ['\n']
    ensures Contains(BodyStart(trigger, schema, table), Delimiter(TAG)) <==> !TagFree(trigger, schema, table)
  {
    var t := Delimiter(TAG);
    var start, mid, end := "\nBEGIN\n  IF to_regclass(", ") IS NOT NULL THEN\n    EXECUTE ", ";\n  END IF;\nEND";
    BodyTexts();
    DelimiterChars();
    hide Contains, Quote, DropTrigger, Delimiter;
    StatementContains(trigger, schema, table);
    ContainsAround(schema, '.', table, t);
    var name, statement := schema + "." + table, DropTrigger(trigger, schema, table);
    assert name == schema + ['.'] + table;
    ContainsQuoted(mid, statement, '\'', end, t);
    ContainsQuoted(start, name, '\'', mid + Quote(statement, '\'') + end, t);
  }

  lemma BodyTexts()
    ensures !Contains("\nBEGIN\n  IF to_regclass(", Delimiter(TAG)) && !Contains(") IS NOT NULL THEN\n    EXECUTE ", Delimiter(TAG))
    ensures !Contains(";\n  END IF;\nEND", Delimiter(TAG))
    ensures ";\n  END IF;\nEND" + ['\n'] == ";\n  END IF;\nEND\n"
  {
    DelimiterChars();
    hide Contains, Delimiter;
    NothingContains("\nBEGIN\n  IF to_regclass(", '$', Delimiter(TAG));
    NothingContains(") IS NOT NULL THEN\n    EXECUTE ", '$', Delimiter(TAG));
    NothingContains(";\n  END IF;\nEND", '$', Delimiter(TAG));
  }

  /** The body without its last newline. */
  function BodyStart(trigger: string, schema: string, table: string): string {
    "\nBEGIN\n  IF to_regclass(" + Quote(schema + "." + table, '\'')
    + (") IS NOT NULL THEN\n    EXECUTE " + Quote(DropTrigger(trigger, schema, table), '\'') + ";\n  END IF;\nEND")
  }

  function BlockPieces(body: string): seq<Piece> { [P("DO "), D(TAG, body), P(";\n")] }

  lemma BlockRender(trigger: string, schema: string, table: string)
    ensures Render(BlockPieces(Body(trigger, schema, table))) == DropBlock(trigger, schema, table)
  {
    var body := Body(trigger, schema, table);
    hide Body;
    var ps := BlockPieces(body);
    assert ps[1..] == [D(TAG, body), P(";\n")] && ps[1..][1..] == [P(";\n")];
    assert Render(ps[1..][1..]) == ";\n" + Render([P(";\n")][1..]);
    assert Render(ps[1..]) == PieceText(D(TAG, body)) + ";\n";
    assert Render(ps) == "DO " + (PieceText(D(TAG, body)) + ";\n");
  }

  /** The block lexes to DO, the body and a semicolon if and only if no name contains the tag. */
  lemma BlockLexesIff(trigger: string, schema: string, table: string)
    ensures Lex(DropBlock(trigger, schema, table)) == Some(Tokens(BlockPieces(Body(trigger, schema, table))))
            <==> TagFree(trigger, schema, table)
  {
    hide *;
    BlockJoined(trigger, schema, table);
    LexRenderIff(BlockPieces(Body(trigger, schema, table)));
  }

  // The levels inside

  function BodyPieces(trigger: string, schema: string, table: string): seq<Piece> {
    [P(START), L(schema + "." + table), P(MIDDLE), L(DropTrigger(trigger, schema, table)), P(END)]
  }

  function StatementPieces(trigger: string, schema: string, table: string): seq<Piece> {
    [P("DROP TRIGGER IF EXISTS "), Q(trigger), P(" ON "), Q(schema), P("."), Q(table)]
  }

  lemma BodyRender(trigger: string, schema: string, table: string)
    ensures Render(BodyPieces(trigger, schema, table)) == Body(trigger, schema, table)
    ensures Fit(BodyPieces(trigger, schema, table))
  {
    FixedTexts();
    BodyParts(trigger, schema, table);
    hide *;
    TwoQuoted(START, L(schema + "." + table), MIDDLE, L(DropTrigger(trigger, schema, table)), END);
  }

  lemma FixedTexts()
    ensures Fixed(START) && Fixed(MIDDLE) && Fixed(END)
  {}

  lemma BodyParts(trigger: string, schema: string, table: string)
    ensures var name, statement := L(schema + "." + table), L(DropTrigger(trigger, schema, table));
            && Quoted(name) && Quoted(statement)
            && BodyPieces(trigger, schema, table) == [P(START), name, P(MIDDLE), statement, P(END)]
            && Body(trigger, schema, table) == START + PieceText(name) + MIDDLE + PieceText(statement) + END
  {
    hide Quote, DropTrigger;
  }

  lemma StatementRender(trigger: string, schema: string, table: string)
    ensures Render(StatementPieces(trigger, schema, table)) == DropTrigger(trigger, schema, table)
    ensures Fit(StatementPieces(trigger, schema, table))
  {
    var head, on, dot := "DROP TRIGGER IF EXISTS ", " ON ", ".";
    assert Fixed(head) && Fixed(on) && Fixed(dot);
    hide Quote, Render, Fixed, Fit;
    ThreeQuoted(head, Q(trigger), on, Q(schema), dot, Q(table));
  }

  /** The body holds the statement as one literal, and the statement names the trigger, the
      schema and the table: every name survives both levels of quoting. */
  lemma InnerLevelsLex(trigger: string, schema: string, table: string)
    ensures Lex(Body(trigger, schema, table)) == Some(Tokens(BodyPieces(trigger, schema, table)))
    ensures Lex(DropTrigger(trigger, schema, table)) == Some(Tokens(StatementPieces(trigger, schema, table)))
  {
    hide *;
    BodyRender(trigger, schema, table);
    StatementRender(trigger, schema, table);
    LexRender(BodyPieces(trigger, schema, table));
    LexRender(StatementPieces(trigger, schema, table));
  }

  // The whole text

  function DeletePieces(w: Webhook, events: seq<string>): seq<Piece> {
    if events == [] then []
    else
      DeletePieces(w, events[..|events| - 1])
      + BlockPieces(Body(TriggerName(w, events[|events| - 1]), w.schema, w.table))
  }

  function FunctionPieces(w: Webhook): seq<Piece> {
    [P("DROP FUNCTION IF EXISTS supadupa."), Q(FunctionName(w)), P("();\n")]
  }

  lemma DeleteStep(w: Webhook, events: seq<string>, event: string)
    ensures DeletePieces(w, events + [event]) == DeletePieces(w, events) + BlockPieces(Body(TriggerName(w, event), w.schema, w.table))
    ensures DropBlocks(w, events + [event]) == DropBlocks(w, events) + DropBlock(TriggerName(w, event), w.schema, w.table)
    ensures DeletePieces(w, []) == [] && DropBlocks(w, []) == ""
  {
    assert (events + [event])[..|events|] == events;
    hide BlockPieces, Body, DropBlock, TriggerName;
  }

  ghost predicate AllTagFree(w: Webhook, events: seq<string>) {
    forall e :: e in events ==> TagFree(TriggerName(w, e), w.schema, w.table)
  }

  lemma AllTagFreeStep(w: Webhook, events: seq<string>, event: string)
    ensures AllTagFree(w, events + [event]) <==> AllTagFree(w, events) && TagFree(TriggerName(w, event), w.schema, w.table)
    ensures AllTagFree(w, [])
  {
    assert forall e :: e in events + [event] <==> e in events || e == event;
    hide TagFree, TriggerName;
  }

  predicate EndsBlock(ps: seq<Piece>) { ps != [] && ps[|ps| - 1] == P(";\n") }

  lemma NoBlocks()
    ensures Joined([]) && BodiesEnd([]) && Render([]) == ""
  {}

  lemma {:induction false} DeletePiecesJoined(w: Webhook, events: seq<string>)
    ensures var ps := DeletePieces(w, events);
            && Joined(ps) && Render(ps) == DropBlocks(w, events) && (BodiesEnd(ps) <==> AllTagFree(w, events))
            && (if events == [] then ps == [] else EndsBlock(ps))
  {
    hide *;
    if events == [] {
      DeleteStep(w, [], "");
      AllTagFreeStep(w, [], "");
      NoBlocks();
      return;
    }
    var before, e := events[..|events| - 1], events[|events| - 1];
    assert events == before + [e];
    DeletePiecesJoined(w, before);
    DeleteStep(w, before, e);
    AllTagFreeStep(w, before, e);
    BlockJoined(TriggerName(w, e), w.schema, w.table);
    var ps, block := DeletePieces(w, before), BlockPieces(Body(TriggerName(w, e), w.schema, w.table));
    OneMoreBlock(ps, block);
    RenderConcat(ps, block);
  }

  lemma OneMoreBlock(ps: seq<Piece>, block: seq<Piece>)
    requires Joined(ps) && (ps == [] || EndsBlock(ps)) && Joined(block) && EndsBlock(block) && block[0] == P("DO ")
    ensures Joined(ps + block) && EndsBlock(ps + block) && (BodiesEnd(ps + block) <==> BodiesEnd(ps) && BodiesEnd(block))
  {
    hide Joined, BodiesEnd;
    JoinedConcat(ps, block);
  }

  lemma BlockJoined(trigger: string, schema: string, table: string)
    ensures var block := BlockPieces(Body(trigger, schema, table));
            && Joined(block) && (BodiesEnd(block) <==> TagFree(trigger, schema, table))
            && Render(block) == DropBlock(trigger, schema, table)
            && EndsBlock(block) && block[0] == P("DO ")
  {
    hide Body, TagFree, DropBlock, EndsBody, Render, Joined, BodiesEnd, Clash;
    BodyEnds(trigger, schema, table);
    BlockRender(trigger, schema, table);
    var body := Body(trigger, schema, table);
    assert [P("DO ")] + [D(TAG, body)] + [P(";\n")] == BlockPieces(body);
    AroundBody(body);
    JoinedConcat([P("DO ")], [D(TAG, body)]);
    JoinedConcat([P("DO ")] + [D(TAG, body)], [P(";\n")]);
  }

  lemma AroundBody(body: string)
    ensures Joined([P("DO ")]) && Joined([P(";\n")]) && BodiesEnd([P("DO ")]) && BodiesEnd([P(";\n")])
    ensures Joined([D(TAG, body)]) && (BodiesEnd([D(TAG, body)]) <==> EndsBody(TAG, body))
    ensures !Clash(P("DO "), D(TAG, body)) && !Clash(D(TAG, body), P(";\n"))
  {
    hide EndsBody;
    OneDollar(TAG, body);
  }

  lemma BodyEnds(trigger: string, schema: string, table: string)
    ensures EndsBody(TAG, Body(trigger, schema, table)) <==> TagFree(trigger, schema, table)
  {
    DelimiterChars();
    hide Body, BodyStart, TagFree, Contains, EndsBody, Delimiter;
    BodyContains(trigger, schema, table);
    EndsBodyIff(TAG, BodyStart(trigger, schema, table), '\n');
  }

  lemma FunctionRender(w: Webhook)
    ensures Render(FunctionPieces(w)) == DropFunction(w) && Fit(FunctionPieces(w))
  {
    var head, tail := "DROP FUNCTION IF EXISTS supadupa.", "();\n";
    assert Fixed(head) && Fixed(tail);
    hide Quote, Fixed, Fit, Render, FunctionName;
    OneQuoted(head, Q(FunctionName(w)), tail);
  }

  /** The whole delete text lexes to one block per event and the drop of the function exactly if
      no name in it contains the tag. */
  lemma DeleteTextLexesIff(w: Webhook)
    ensures Lex(DropBlocks(w, w.events) + DropFunction(w)) == Some(Tokens(DeletePieces(w, w.events) + FunctionPieces(w)))
            <==> AllTagFree(w, w.events)
  {
    hide *;
    DeletePiecesJoined(w, w.events);
    FunctionRender(w);
    var a, b := DeletePieces(w, w.events), FunctionPieces(w);
    FitIff(b);
    FunctionFollows(w, a);
    JoinedConcat(a, b);
    RenderConcat(a, b);
    LexRenderIff(a + b);
  }

  /** The names and events of a webhook that the store admits. */
  predicate Stored(w: Webhook) {
    && RefPattern(w.name) && IdentifierPattern(w.schema) && IdentifierPattern(w.table)
    && forall e :: e in w.events ==> e in ["insert", "update", "delete"]
  }

  lemma EventsPlain()
    ensures forall e :: e in ["insert", "update", "delete"] ==> '$' !in ToLower(e)
  {
    assert forall e, c :: e in ["insert", "update", "delete"] && c in e ==> 'a' <= c <= 'z';
  }

  lemma TriggerPlain(w: Webhook, event: string)
    requires RefPattern(w.name) && '$' !in ToLower(event)
    ensures '$' !in TriggerName(w, event)
  {
    var name := DashToUnderscore(w.name);
    assert forall i :: 0 <= i < |name| ==> w.name[i] in w.name;
    assert '$' !in name;
    hide DashToUnderscore, RefPattern, ToLower;
  }

  lemma StoredTagFree(w: Webhook)
    requires Stored(w)
    ensures AllTagFree(w, w.events)
  {
    var t := Delimiter(TAG);
    assert t[0] == '$';
    EventsPlain();
    assert '$' !in w.schema && '$' !in w.table;
    hide TriggerName, ToLower, IdentifierPattern, Contains;
    NothingContains(w.schema, '$', t);
    NothingContains(w.table, '$', t);
    forall e | e in w.events ensures TagFree(TriggerName(w, e), w.schema, w.table) {
      TriggerPlain(w, e);
      NothingContains(TriggerName(w, e), '$', t);
    }
  }

  /** So it does for every webhook that the store admits. */
  lemma StoredDeleteTextLexes(w: Webhook)
    requires Stored(w)
    ensures Lex(DropBlocks(w, w.events) + DropFunction(w)) == Some(Tokens(DeletePieces(w, w.events) + FunctionPieces(w)))
  {
    hide *;
    StoredTagFree(w);
    DeleteTextLexesIff(w);
  }

  lemma FunctionFollows(w: Webhook, ps: seq<Piece>)
    ensures FunctionPieces(w) != []
    ensures EndsBlock(ps) ==> ps != [] && !Clash(ps[|ps| - 1], FunctionPieces(w)[0])
  {}
}
