/** What the webhook scripts say (internal/api/project_database_webhook_handlers.go): a reader from
    tokens to statements, with the body of the trigger function and of the guarded drop read in turn.
    Its phrases are those of PostgreSQL and PL/pgSQL; how they are laid out does not matter. */
module WebhookReader {
  import opened SqlText
  import opened SqlWords
  import opened SqlForms
  import opened Wrappers
  import RoleReader

  /** What the trigger function posts to, with which headers, and for how long it waits. */
  datatype Delivery = Delivery(headers: string, url: string, milliseconds: int)

  /** Functions are in the schema supadupa. */
  datatype Statement =
    | EnsureSchema
    | EnsureExtension
    | ReplaceFunction(function_: string, delivery: Delivery)
    | DropTrigger(trigger: string, schema: string, table: string)
    | CreateTrigger(trigger: string, event: string, schema: string, table: string, function_: string)
    | DropTriggerIf(class_: string, trigger: string, schema: string, table: string)   // if to_regclass finds the class
    | DropFunction(function_: string)

  // The forms

  const SCHEMA_FORM := Form([], "CREATE SCHEMA IF NOT EXISTS supadupa;\n")

  const EXTENSION_FORM := Form([], "CREATE EXTENSION IF NOT EXISTS pg_net;\n")

  const OPTIONS := "()\nRETURNS trigger\nLANGUAGE plpgsql\n" + "SECURITY DEFINER\n" + ("SET search_path = public, net, pg_temp\n" + "AS ")

  const FUNCTION_FORM := Form([("CREATE OR REPLACE FUNCTION supadupa.", AName)], OPTIONS)

  function DropTriggerForm(end: string): Form {
    Form([("DROP TRIGGER IF EXISTS ", AName), (" ON ", AName), (".", AName)], end)
  }

  const EXECUTE := "\nFOR EACH ROW EXECUTE " + "FUNCTION supadupa."

  function TriggerForm(event: string): Form {
    Form([("CREATE TRIGGER ", AName), ("\nAFTER " + event + " ON ", AName), (".", AName), (EXECUTE, AName)], "();\n")
  }

  const GUARD_FORM := Form(
    [("\nBEGIN\n  IF to_regclass(", ALiteral), (") IS NOT NULL THEN\n    EXECUTE ", ALiteral)], ";\n  END IF;\nEND\n")

  const DROP_FUNCTION_FORM := Form([("DROP FUNCTION IF EXISTS supadupa.", AName)], "();\n")

  const DECLARED := "\nDECLARE\n  request_payload jsonb;\n" + "  request_headers jsonb := "

  const OPENED := "::jsonb;\nBEGIN\n" + "  request_payload := " + "jsonb_build_object(\n    "

  const POSTED := ") THEN to_jsonb(OLD) ELSE NULL END\n" + "  );\n  PERFORM net.http_post(\n" + "    url := "

  const ARGUMENTS := ",\n    body := request_payload,\n" + "    headers := request_headers,\n" + "    timeout_milliseconds := "

  const RETURNED := "\n  );\n  RETURN COALESCE(NEW, OLD);\n" + "END;\n"

  /** The payload names the operation, the table and the schema, the new row unless it was deleted,
      and the old row if there was one. */
  function BodyForm(milliseconds: string): Form {
    Form([(DECLARED, ALiteral), (OPENED, ALiteral), (", TG_OP,\n    ", ALiteral), (", TG_TABLE_NAME,\n    ", ALiteral),
          (", TG_TABLE_SCHEMA,\n    ", ALiteral), (", CASE WHEN TG_OP = ", ALiteral),
          (" THEN NULL ELSE to_jsonb(NEW) END,\n    ", ALiteral), (", CASE WHEN TG_OP IN (", ALiteral), (", ", ALiteral),
          (POSTED, ALiteral)],
         ARGUMENTS + (milliseconds + RETURNED))
  }

  const KEYS := ["type", "table", "schema", "record", "DELETE", "old_record", "UPDATE", "DELETE"]

  // The reader

  /** What is read by a form: as many values as it has places, and what follows. */
  function Parts(f: Form, ts: seq<Token>, n: nat): (r: Option<(seq<string>, seq<Token>)>)
    ensures r.Some? ==> |r.value.0| == n
  {
    var m := Match(Laid(f), ts);
    if m.Some? && |m.value.0| == n then m else None
  }

  function WordAt(ts: seq<Token>, i: nat): string { if i < |ts| && ts[i].Word? then ts[i].text else "" }

  /** The word that stands before the end. */
  function WordBefore(ts: seq<Token>, end: seq<Token>): string {
    if |ts| > |end| then WordAt(ts, |ts| - |end| - 1) else ""
  }

  function ReadDelivery(body: string): Option<Delivery> {
    var ts := Phrase(body);
    var digits := WordBefore(ts, Phrase(RETURNED));
    if digits == "" || !RoleReader.AllDigits(digits) then None
    else match Parts(BodyForm(digits), ts, 10)
      case None => None
      case Some((values, rest)) =>
        if rest == [] && values[1..9] == KEYS then Some(Delivery(values[0], values[9], RoleReader.Value(digits))) else None
  }

  /** The class that is looked for, and the trigger that is then dropped from a table. */
  function ReadGuarded(body: string): Option<Statement> {
    match Parts(GUARD_FORM, Phrase(body), 2)
    case None => None
    case Some((values, rest)) =>
      if rest != [] then None
      else match Parts(DropTriggerForm(""), Phrase(values[1]), 3)
        case None => None
        case Some((names, more)) => if more == [] then Some(DropTriggerIf(values[0], names[0], names[1], names[2])) else None
  }

  function ReadStatement(ts: seq<Token>): Option<(Statement, seq<Token>)> {
    var verb, object_ := WordAt(ts, 0), WordAt(ts, 1);
    if verb == "CREATE" && object_ == "SCHEMA" then
      match Parts(SCHEMA_FORM, ts, 0)
      case None => None
      case Some((_, rest)) => Some((EnsureSchema, rest))
    else if verb == "CREATE" && object_ == "EXTENSION" then
      match Parts(EXTENSION_FORM, ts, 0)
      case None => None
      case Some((_, rest)) => Some((EnsureExtension, rest))
    else if verb == "CREATE" && object_ == "OR" then
      match Parts(FUNCTION_FORM, ts, 1)
      case None => None
      case Some((values, rest)) =>
        if |rest| >= 2 && rest[0].Dollar? && rest[1] == END && ReadDelivery(rest[0].body).Some?
        then Some((ReplaceFunction(values[0], ReadDelivery(rest[0].body).value), rest[2..])) else None
    else if verb == "CREATE" && object_ == "TRIGGER" then
      match Parts(TriggerForm(WordAt(ts, 4)), ts, 4)
      case None => None
      case Some((values, rest)) => Some((CreateTrigger(values[0], WordAt(ts, 4), values[1], values[2], values[3]), rest))
    else if verb == "DROP" && object_ == "TRIGGER" then
      match Parts(DropTriggerForm(";\n"), ts, 3)
      case None => None
      case Some((values, rest)) => Some((DropTrigger(values[0], values[1], values[2]), rest))
    else if verb == "DROP" && object_ == "FUNCTION" then
      match Parts(DROP_FUNCTION_FORM, ts, 1)
      case None => None
      case Some((values, rest)) => Some((DropFunction(values[0]), rest))
    else if verb == "DO" && |ts| >= 3 && ts[1].Dollar? && ts[2] == END && ReadGuarded(ts[1].body).Some?
    then Some((ReadGuarded(ts[1].body).value, ts[3..]))
    else None
  }

  function ReadScript(ts: seq<Token>): Option<seq<Statement>>
    decreases |ts|
  {
    if ts == [] then Some([])
    else match ReadStatement(ts)
      case None => None
      case Some((s, rest)) =>
        if |rest| >= |ts| then None
        else match ReadScript(rest)
          case None => None
          case Some(more) => Some([s] + more)
  }

  lemma PartsBack(f: Form, values: seq<string>, rest: seq<Token>, n: nat)
    requires |values| == Places(Laid(f)) == n
    ensures Parts(f, Fill(Laid(f), values) + rest, n) == Some((values, rest))
  {
    hide Laid, Fill, Match, Places;
    FillRead(Laid(f), values, rest);
  }

  // Reading scripts statement by statement

  /** Whatever follows the tokens, the statement is read from them. */
  ghost predicate Says(ts: seq<Token>, s: Statement) {
    ts != [] && forall rest {:trigger ReadStatement(ts + rest)} :: ReadStatement(ts + rest) == Some((s, rest))
  }

  ghost predicate SaysAll(ts: seq<Token>, statements: seq<Statement>) {
    forall rest {:trigger ReadScript(ts + rest)} ::
      ReadScript(rest).Some? ==> ReadScript(ts + rest) == Some(statements + ReadScript(rest).value)
  }

  lemma ReadScriptStep(ts: seq<Token>, s: Statement, rest: seq<Token>)
    requires ts != [] && ReadStatement(ts + rest) == Some((s, rest)) && ReadScript(rest).Some?
    ensures ReadScript(ts + rest) == Some([s] + ReadScript(rest).value)
  {
    hide ReadStatement;
  }

  lemma SaysOne(ts: seq<Token>, s: Statement)
    requires Says(ts, s)
    ensures SaysAll(ts, [s])
  {
    hide ReadStatement, ReadScript;
    forall rest | ReadScript(rest).Some? ensures ReadScript(ts + rest) == Some([s] + ReadScript(rest).value) {
      ReadScriptStep(ts, s, rest);
    }
  }

  lemma SaysMore(a: seq<Token>, first: seq<Statement>, b: seq<Token>, later: seq<Statement>)
    requires SaysAll(a, first) && SaysAll(b, later)
    ensures SaysAll(a + b, first + later)
  {
    hide ReadScript;
    forall rest | ReadScript(rest).Some? ensures ReadScript(a + b + rest) == Some(first + later + ReadScript(rest).value) {
      assert ReadScript(b + rest) == Some(later + ReadScript(rest).value);
      assert a + b + rest == a + (b + rest);
      assert first + (later + ReadScript(rest).value) == first + later + ReadScript(rest).value;
    }
  }

  lemma SaysNothing()
    ensures SaysAll([], [])
  {
    hide ReadScript;
    forall rest | ReadScript(rest).Some? ensures ReadScript([] + rest) == Some([] + ReadScript(rest).value) {
      assert [] + rest == rest && [] + ReadScript(rest).value == ReadScript(rest).value;
    }
  }

  /** A script that says all of the statements is read as them. */
  lemma ReadSaid(ts: seq<Token>, statements: seq<Statement>)
    requires SaysAll(ts, statements)
    ensures ReadScript(ts) == Some(statements)
  {
    assert ReadScript([]) == Some([]);
    hide ReadScript;
    assert ts + [] == ts && statements + [] == statements;
  }
}
