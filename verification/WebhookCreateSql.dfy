/** The SQL that installs a database webhook
    (internal/api/project_database_webhook_handlers.go): a trigger function whose
    dollar-quoted body holds the request headers and the endpoint as literals, and one
    trigger for each event. */
module WebhookCreateSql {
  import opened SqlText
  import opened Wrappers
  import WebhookSql

  /** `headers` is what resolving and marshalling the request headers gives, if it succeeds. */
  datatype Webhook = Webhook(
    name: string, schema: string, table: string, events: seq<string>, active: bool,
    httpMethod: string, endpoint: string, timeoutSeconds: int, headers: Option<string>)

  datatype Outcome = Nothing | Apply(sql: string) | UnsupportedMethod | HeadersFailed

  function FunctionName(w: Webhook): string {
    WebhookSql.FunctionName(WebhookSql.Webhook(w.name, w.schema, w.table, w.events, w.active))
  }

  function TriggerName(w: Webhook, event: string): string {
    WebhookSql.TriggerName(WebhookSql.Webhook(w.name, w.schema, w.table, w.events, w.active), event)
  }

  /** strings.ToUpper, on ASCII letters. */
  function ToUpper(s: string): string {
    seq(|s|, i requires 0 <= i < |s| => if 'a' <= s[i] <= 'z' then (s[i] as int - 32) as char else s[i])
  }

  // The text, as fixed texts and quoted values in turn

  const TAG := "function"

  const CREATE := "CREATE SCHEMA IF NOT EXISTS supadupa;\n" + "CREATE EXTENSION IF NOT EXISTS pg_net;\n"
    + "CREATE OR REPLACE FUNCTION supadupa."
  const RETURNS := "()\nRETURNS trigger\nLANGUAGE plpgsql\n" + "SECURITY DEFINER\n"
    + ("SET search_path = public, net, pg_temp\n" + "AS ")

  const DECLARE := "\nDECLARE\n  request_payload jsonb;\n" + "  request_headers jsonb := "
  const BEGIN := "::jsonb;\nBEGIN\n" + "  request_payload := " + "jsonb_build_object(\n    "
  const POST := ") THEN to_jsonb(OLD) ELSE NULL END\n" + "  );\n  PERFORM net.http_post(\n" + "    url := "
  const TIMEOUT := ",\n    body := request_payload,\n" + "    headers := request_headers,\n" + "    timeout_milliseconds := "
  const RETURN := "\n  );\n  RETURN COALESCE(NEW, OLD);\n" + "END;\n"

  /** What stands between the headers and the endpoint; the constant literals are their names
      between quotes. */
  const PAYLOAD: seq<(string, Piece)> := [
    (BEGIN, L("type")), (", TG_OP,\n    ", L("table")), (", TG_TABLE_NAME,\n    ", L("schema")),
    (", TG_TABLE_SCHEMA,\n    ", L("record")), (", CASE WHEN TG_OP = ", L("DELETE")),
    (" THEN NULL ELSE to_jsonb(NEW) END,\n    ", L("old_record")), (", CASE WHEN TG_OP IN (", L("UPDATE")), (", ", L("DELETE"))]

  function BodyParts(headers: string, endpoint: string): seq<(string, Piece)> {
    [(DECLARE, L(headers))] + PAYLOAD + [(POST, L(endpoint))]
  }

  function BodyEnd(timeoutSeconds: int): string {
    TIMEOUT + (Itoa(timeoutSeconds * 1000) + RETURN)
  }

  function FunctionBody(headers: string, w: Webhook): string {
    WeaveText(BodyParts(headers, w.endpoint), BodyEnd(w.timeoutSeconds))
  }

  function TriggerParts(w: Webhook, event: string): seq<(string, Piece)> {
    [("DROP TRIGGER IF EXISTS ", Q(TriggerName(w, event))), (" ON ", Q(w.schema)), (".", Q(w.table)),
     (";\nCREATE TRIGGER ", Q(TriggerName(w, event))), ("\nAFTER " + ToUpper(event) + " ON ", Q(w.schema)), (".", Q(w.table)),
     ("\nFOR EACH ROW EXECUTE " + "FUNCTION supadupa.", Q(FunctionName(w)))]
  }

  const CALL := "();\n"

  function Triggers(w: Webhook, events: seq<string>): string {
    if events == [] then ""
    else Triggers(w, events[..|events| - 1]) + WeaveText(TriggerParts(w, events[|events| - 1]), CALL)
  }

  function FunctionText(w: Webhook, headers: string): string {
    WeaveText([(CREATE, Q(FunctionName(w)))], RETURNS)
    + (Delimiter(TAG) + FunctionBody(headers, w) + Delimiter(TAG) + ";\n")
  }

  function CreateText(w: Webhook, headers: string): string {
    FunctionText(w, headers) + Triggers(w, w.events)
  }

  method ApplyProjectDatabaseWebhookCreate(w: Webhook) returns (outcome: Outcome)
    ensures outcome == if !w.active then Nothing
                       else if w.httpMethod != "POST" then UnsupportedMethod
                       else if w.headers.None? then HeadersFailed
                       else Apply(CreateText(w, w.headers.value))
  {
    if !w.active { return Nothing; }
    if w.httpMethod != "POST" { return UnsupportedMethod; }
    if w.headers.None? { return HeadersFailed; }
    var headersJSON := w.headers.value;
    hide FunctionText, Triggers, WeaveText, TriggerParts;
    NoTriggers(w, FunctionText(w, headersJSON));
    var sql := FunctionText(w, headersJSON);
    for i := 0 to |w.events|
      invariant sql == FunctionText(w, headersJSON) + Triggers(w, w.events[..i])
    {
      NextTrigger(w, i, FunctionText(w, headersJSON));
      sql := sql + WeaveText(TriggerParts(w, w.events[i]), CALL);
    }
    assert w.events[..|w.events|] == w.events;
    return Apply(sql);
  }

  lemma NoTriggers(w: Webhook, text: string)
    ensures text + Triggers(w, w.events[..0]) == text
  {}

  lemma NextTrigger(w: Webhook, i: nat, text: string)
    requires i < |w.events|
    ensures text + Triggers(w, w.events[..i + 1]) == text + Triggers(w, w.events[..i]) + WeaveText(TriggerParts(w, w.events[i]), CALL)
  {
    assert w.events[..i + 1][..i] == w.events[..i];
    hide WeaveText, TriggerParts;
  }

  // The body

  lemma BodyWeavable(headers: string, endpoint: string, timeoutSeconds: int)
    ensures Weavable(BodyParts(headers, endpoint), BodyEnd(timeoutSeconds))
  {
    PayloadFixed();
    EdgesFixed();
    EndFixed(timeoutSeconds);
    hide Fixed, BodyEnd;
  }

  lemma PlainThree(a: string, b: string, c: string)
    requires Plain(a) && Plain(b) && Plain(c)
    ensures Plain(a + b + c)
  {}

  lemma PayloadFixed()
    ensures forall i :: 0 <= i < |PAYLOAD| ==> Fixed(PAYLOAD[i].0) && PAYLOAD[i].1.L?
  {
    BeginFixed();
    FieldsFixed();
    CasesFixed();
    hide Fixed;
  }

  lemma BeginFixed()
    ensures Fixed(BEGIN)
  {
    PlainThree("::jsonb;\nBEGIN\n", "  request_payload := ", "jsonb_build_object(\n    ");
  }

  lemma FieldsFixed()
    ensures Fixed(", TG_OP,\n    ") && Fixed(", TG_TABLE_NAME,\n    ") && Fixed(", TG_TABLE_SCHEMA,\n    ")
  {}

  lemma CasesFixed()
    ensures Fixed(", CASE WHEN TG_OP = ") && Fixed(" THEN NULL ELSE to_jsonb(NEW) END,\n    ")
    ensures Fixed(", CASE WHEN TG_OP IN (") && Fixed(", ")
  {}

  lemma EdgesFixed()
    ensures Fixed(DECLARE) && Fixed(POST)
  {
    DeclareFixed();
    PostFixed();
  }

  lemma DeclareFixed()
    ensures Fixed(DECLARE)
  {
    PlainConcat("\nDECLARE\n  request_payload jsonb;\n", "  request_headers jsonb := ");
  }

  lemma PostFixed()
    ensures Fixed(POST)
  {
    PlainThree(") THEN to_jsonb(OLD) ELSE NULL END\n", "  );\n  PERFORM net.http_post(\n", "    url := ");
  }

  lemma ArgumentsPlain()
    ensures Plain(",\n    body := request_payload,\n") && Plain("    headers := request_headers,\n")
  {}

  lemma TimeoutPlain()
    ensures Plain(TIMEOUT)
  {
    ArgumentsPlain();
    PlainThree(",\n    body := request_payload,\n", "    headers := request_headers,\n", "    timeout_milliseconds := ");
  }

  lemma ReturnPlain()
    ensures Plain(RETURN) && RETURN[|RETURN| - 1] == '\n'
  {
    PlainConcat("\n  );\n  RETURN COALESCE(NEW, OLD);\n", "END;\n");
  }

  lemma EndFixed(timeoutSeconds: int)
    ensures Fixed(BodyEnd(timeoutSeconds)) && BodyEnd(timeoutSeconds)[|BodyEnd(timeoutSeconds)| - 1] == '\n'
  {
    hide Plain, Itoa;
    TimeoutPlain();
    ReturnPlain();
    PlainConcat(Itoa(timeoutSeconds * 1000), RETURN);
    PlainConcat(TIMEOUT, Itoa(timeoutSeconds * 1000) + RETURN);
  }

  /** The body assigns the headers and posts to the endpoint as they are: both come back out
      of their literals. */
  lemma BodyLexes(headers: string, w: Webhook)
    ensures var parts, end := BodyParts(headers, w.endpoint), BodyEnd(w.timeoutSeconds);
            Lex(FunctionBody(headers, w)) == Some(Tokens(Weave(parts, end)))
  {
    hide *;
    BodyWeavable(headers, w.endpoint, w.timeoutSeconds);
    WeaveFits(BodyParts(headers, w.endpoint), BodyEnd(w.timeoutSeconds));
    LexRender(Weave(BodyParts(headers, w.endpoint), BodyEnd(w.timeoutSeconds)));
    BodyIsWoven(headers, w);
  }

  lemma BodyIsWoven(headers: string, w: Webhook)
    ensures FunctionBody(headers, w) == WeaveText(BodyParts(headers, w.endpoint), BodyEnd(w.timeoutSeconds))
  {}

  // The whole text

  ghost predicate TagFree(headers: string, w: Webhook) {
    !Contains(headers, Delimiter(TAG)) && !Contains(w.endpoint, Delimiter(TAG))
  }

  lemma TagChars()
    ensures '$' in Delimiter(TAG) && '"' !in Delimiter(TAG) && '\'' !in Delimiter(TAG) && '\n' !in Delimiter(TAG)
    ensures Delimiter(TAG) != "" && AllWord(TAG)
  {
    assert Delimiter(TAG) == "$function$";
    assert Delimiter(TAG)[0] == '$';
  }

  lemma PayloadTagFree()
    ensures forall i :: 0 <= i < |PAYLOAD| ==> PAYLOAD[i].1.L? && '$' !in PAYLOAD[i].1.value
  {}

  lemma BodyContains(headers: string, w: Webhook)
    ensures Contains(FunctionBody(headers, w), Delimiter(TAG)) <==> !TagFree(headers, w)
  {
    var parts, t := BodyParts(headers, w.endpoint), Delimiter(TAG);
    TagChars();
    PayloadTagFree();
    hide Contains, Delimiter, WeaveText, BodyEnd;
    BodyWeavable(headers, w.endpoint, w.timeoutSeconds);
    WeaveContains(parts, BodyEnd(w.timeoutSeconds), t);
    assert parts[0] == (DECLARE, L(headers)) && parts[|parts| - 1] == (POST, L(w.endpoint));
    forall i | 1 <= i < |parts| - 1 ensures !Contains(ValueOf(parts[i].1), t) {
      assert parts[i] == PAYLOAD[i - 1];
      NothingContains(PAYLOAD[i - 1].1.value, '$', t);
    }
  }

  /** The body ends where it should exactly if neither the headers nor the endpoint contain the tag. */
  lemma BodyEndsIff(headers: string, w: Webhook)
    ensures EndsBody(TAG, FunctionBody(headers, w)) <==> TagFree(headers, w)
  {
    TagChars();
    hide *;
    var body, t := FunctionBody(headers, w), Delimiter(TAG);
    BodyIsWoven(headers, w);
    EndFixed(w.timeoutSeconds);
    NotEmpty(BodyEnd(w.timeoutSeconds));
    WeaveEnds(BodyParts(headers, w.endpoint), BodyEnd(w.timeoutSeconds));
    var start := body[..|body| - 1];
    assert body == start + ['\n'] && body == start + ['\n'] + "";
    BodyContains(headers, w);
    ContainsAround(start, '\n', "", t);
    NothingContains("", '$', t);
    EndsBodyIff(TAG, start, '\n');
  }

  lemma NotEmpty(s: string)
    requires Fixed(s)
    ensures s != ""
  {}

  function TriggerPieces(w: Webhook, events: seq<string>): seq<Piece> {
    if events == [] then []
    else TriggerPieces(w, events[..|events| - 1]) + Weave(TriggerParts(w, events[|events| - 1]), CALL)
  }

  /** One trigger's texts are fixed, if its event is. */
  lemma TriggerWeavable(w: Webhook, event: string)
    requires Plain(event)
    ensures Weavable(TriggerParts(w, event), CALL)
  {
    TriggerTexts();
    AfterFixed(event);
    hide Fixed, ToUpper, TriggerName, FunctionName;
  }

  lemma TriggerTexts()
    ensures Fixed("DROP TRIGGER IF EXISTS ") && Fixed(" ON ") && Fixed(".") && Fixed(";\nCREATE TRIGGER ")
    ensures Fixed("\nFOR EACH ROW EXECUTE " + "FUNCTION supadupa.") && Fixed(CALL)
  {
    PlainConcat("\nFOR EACH ROW EXECUTE ", "FUNCTION supadupa.");
  }

  lemma AfterFixed(event: string)
    requires Plain(event)
    ensures Fixed("\nAFTER " + ToUpper(event) + " ON ")
  {
    assert forall i :: 0 <= i < |event| ==> event[i] in event;
  }

  lemma CallEnds()
    ensures !Clash(P(CALL), P("DROP TRIGGER IF EXISTS ")) && !Clash(P(";\n"), P("DROP TRIGGER IF EXISTS ")) && Fixed(";\n")
  {}

  lemma TriggersStep(w: Webhook, events: seq<string>, event: string)
    ensures TriggerPieces(w, events + [event]) == TriggerPieces(w, events) + Weave(TriggerParts(w, event), CALL)
    ensures Triggers(w, events + [event]) == Triggers(w, events) + WeaveText(TriggerParts(w, event), CALL)
  {
    assert (events + [event])[..|events|] == events;
    hide Weave, WeaveText, TriggerParts;
  }

  lemma NoEvents(w: Webhook)
    ensures Fit([P(";\n")] + TriggerPieces(w, [])) && Render(TriggerPieces(w, [])) == Triggers(w, [])
    ensures EndsStatement([P(";\n")] + TriggerPieces(w, []))
  {
    CallEnds();
    FitOne(";\n");
    assert [P(";\n")] + [] == [P(";\n")];
  }

  predicate EndsStatement(ps: seq<Piece>) {
    ps != [] && (ps[|ps| - 1] == P(";\n") || ps[|ps| - 1] == P(CALL))
  }

  lemma MoreTriggers(ps: seq<Piece>, block: seq<Piece>)
    requires Fit(ps) && EndsStatement(ps)
    requires Fit(block) && block != [] && block[0] == P("DROP TRIGGER IF EXISTS ") && block[|block| - 1] == P(CALL)
    ensures Fit(ps + block) && EndsStatement(ps + block)
  {
    CallEnds();
    hide Fit, Clash, Fixed;
    FitConcat(ps, block);
  }

  lemma {:induction false} TriggersFit(w: Webhook, events: seq<string>)
    requires forall e :: e in events ==> Plain(e)
    ensures var ps := TriggerPieces(w, events);
            Fit([P(";\n")] + ps) && Render(ps) == Triggers(w, events) && EndsStatement([P(";\n")] + ps)
  {
    hide *;
    if events == [] {
      NoEvents(w);
      return;
    }
    var before, e := events[..|events| - 1], events[|events| - 1];
    assert events == before + [e] && e in events && forall f :: f in before ==> f in events;
    var ps, block := TriggerPieces(w, before), Weave(TriggerParts(w, e), CALL);
    TriggersFit(w, before);
    TriggersStep(w, before, e);
    TriggerWeavable(w, e);
    WeaveFits(TriggerParts(w, e), CALL);
    WeaveStart(w, e);
    MoreTriggers([P(";\n")] + ps, block);
    assert [P(";\n")] + ps + block == [P(";\n")] + (ps + block);
    RenderConcat(ps, block);
  }

  lemma WeaveStart(w: Webhook, event: string)
    ensures Weave(TriggerParts(w, event), CALL)[0] == P("DROP TRIGGER IF EXISTS ")
  {}

  function CreatePieces(w: Webhook, headers: string): seq<Piece> {
    Weave([(CREATE, Q(FunctionName(w)))], RETURNS) + [D(TAG, FunctionBody(headers, w))]
    + ([P(";\n")] + TriggerPieces(w, w.events))
  }

  lemma CreateFixed()
    ensures Fixed(CREATE)
  {
    SchemaPlain();
    PlainThree("CREATE SCHEMA IF NOT EXISTS supadupa;\n", "CREATE EXTENSION IF NOT EXISTS pg_net;\n", "CREATE OR REPLACE FUNCTION supadupa.");
  }

  lemma SchemaPlain()
    ensures Plain("CREATE SCHEMA IF NOT EXISTS supadupa;\n") && Plain("CREATE EXTENSION IF NOT EXISTS pg_net;\n")
  {}

  lemma ReturnsFixed()
    ensures Fixed(RETURNS) && !EndsInWord(RETURNS)
  {
    SettingsPlain();
    PlainThree("()\nRETURNS trigger\nLANGUAGE plpgsql\n", "SECURITY DEFINER\n", "SET search_path = public, net, pg_temp\n" + "AS ");
  }

  lemma SettingsPlain()
    ensures Plain("SET search_path = public, net, pg_temp\n" + "AS ")
  {
    PlainConcat("SET search_path = public, net, pg_temp\n", "AS ");
  }

  lemma HeadFits(w: Webhook)
    ensures var head := Weave([(CREATE, Q(FunctionName(w)))], RETURNS);
            && Fit(head) && head != [] && head[|head| - 1] == P(RETURNS)
            && Render(head) == WeaveText([(CREATE, Q(FunctionName(w)))], RETURNS)
  {
    CreateFixed();
    ReturnsFixed();
    hide Fixed, Fit, Render, WeaveText, Weave, FunctionName;
    WeaveFits([(CREATE, Q(FunctionName(w)))], RETURNS);
  }

  lemma CreateRender(w: Webhook, headers: string)
    requires forall e :: e in w.events ==> Plain(e)
    ensures Render(CreatePieces(w, headers)) == CreateText(w, headers)
  {
    var head, body := Weave([(CREATE, Q(FunctionName(w)))], RETURNS), FunctionBody(headers, w);
    var rest := TriggerPieces(w, w.events);
    CreateTextParts(w, headers);
    hide *;
    HeadFits(w);
    TriggersFit(w, w.events);
    ThreeParts(head, D(TAG, body), [P(";\n")] + rest);
    SemicolonText(rest);
    DollarText(TAG, body, ";\n" + Triggers(w, w.events));
    Flat(WeaveText([(CREATE, Q(FunctionName(w)))], RETURNS), Delimiter(TAG), body, ";\n", Triggers(w, w.events));
  }

  lemma CreateTextParts(w: Webhook, headers: string)
    ensures CreatePieces(w, headers)
            == Weave([(CREATE, Q(FunctionName(w)))], RETURNS) + [D(TAG, FunctionBody(headers, w))] + ([P(";\n")] + TriggerPieces(w, w.events))
    ensures CreateText(w, headers)
            == WeaveText([(CREATE, Q(FunctionName(w)))], RETURNS)
               + (Delimiter(TAG) + FunctionBody(headers, w) + Delimiter(TAG) + ";\n") + Triggers(w, w.events)
  {
    hide Weave, WeaveText, FunctionBody, Triggers, TriggerPieces, FunctionName, Delimiter;
  }

  lemma SemicolonText(ps: seq<Piece>)
    ensures Render([P(";\n")] + ps) == ";\n" + Render(ps)
  {
    assert ([P(";\n")] + ps)[1..] == ps;
  }

  lemma Flat(head: string, d: string, body: string, end: string, rest: string)
    ensures head + (d + (body + d + (end + rest))) == head + (d + body + d + end) + rest
  {}

  /** The whole text lexes to the function, with the body in one token, and the triggers exactly
      if neither the headers nor the endpoint contain the tag. */
  lemma CreateTextLexesIff(w: Webhook, headers: string)
    requires forall e :: e in w.events ==> Plain(e)
    ensures Lex(CreateText(w, headers)) == Some(Tokens(CreatePieces(w, headers))) <==> TagFree(headers, w)
  {
    hide *;
    CreateRender(w, headers);
    CreateTextParts(w, headers);
    HeadFits(w);
    ReturnsFixed();
    TagChars();
    TriggersFit(w, w.events);
    BodyEndsIff(headers, w);
    DollarIff(Weave([(CREATE, Q(FunctionName(w)))], RETURNS), TAG, FunctionBody(headers, w), [P(";\n")] + TriggerPieces(w, w.events));
  }
}
