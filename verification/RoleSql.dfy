/** The SQL text of the role statements (internal/api/project_database_role_handlers.go),
    and that it lexes to the tokens of those statements. */
module RoleSql {
  import opened DatabaseRoles
  import opened SqlText
  import opened Wrappers
  import Text

  const EXISTS := "IF NOT EXISTS (SELECT 1 " + "FROM pg_roles WHERE rolname = "
  const EXISTS_START := " BEGIN\n" + EXISTS
  const EXISTS_MIDDLE := ") THEN\nCREATE ROLE "
  const EXISTS_END := ";\nEND IF;\nEND "

  function EnsureBody(role: string): string {
    EXISTS_START + QuoteDatabaseLiteral(role) + EXISTS_MIDDLE + QuoteDatabaseIdentifier(role) + EXISTS_END
  }

  function InheritText(a: Attributes): (s: string)
    ensures Plain(s)
  {
    if a.inherit then " INHERIT" else " NOINHERIT"
  }

  function BypassText(a: Attributes): (s: string)
    ensures Plain(s)
  {
    if a.bypassRLS then " BYPASSRLS" else " NOBYPASSRLS"
  }

  function LimitText(a: Attributes): (s: string)
    ensures Plain(s)
  {
    if a.connectionLimit.Some? then " CONNECTION LIMIT " + Itoa(a.connectionLimit.value) else ""
  }

  /** What ALTER ROLE says after LOGIN. */
  function Options(a: Attributes): string {
    InheritText(a) + BypassText(a) + LimitText(a) + ";\n"
  }

  function JoinComma(parts: seq<string>): string {
    if parts == [] then ""
    else if |parts| == 1 then parts[0]
    else JoinComma(parts[..|parts| - 1]) + ", " + parts[|parts| - 1]
  }

  /** A statement as pieces of SQL text. */
  function Pieces(s: Statement): seq<Piece> {
    match s
    case EnsureRole(role) => [P("DO "), D("", EnsureBody(role)), P(";\n")]
    case AlterRole(role, a) =>
      if a.password.Some?
      then [P("ALTER ROLE "), Q(role), P(" LOGIN PASSWORD "), L(a.password.value), P(Options(a))]
      else [P("ALTER ROLE "), Q(role), P(" NOLOGIN" + Options(a))]
    case GrantRole(member, role) => [P("GRANT "), Q(member), P(" TO "), Q(role), P(";\n")]
    case GrantSchema(ps, schema, role) => [P("GRANT " + JoinComma(ps) + " ON SCHEMA "), Q(schema), P(" TO "), Q(role), P(";\n")]
    case GrantTables(ps, schema, role) => [P("GRANT " + JoinComma(ps) + " ON ALL TABLES IN SCHEMA "), Q(schema), P(" TO "), Q(role), P(";\n")]
    case RevokeTables(ps, schema, role) => [P("REVOKE " + JoinComma(ps) + " ON ALL TABLES IN SCHEMA "), Q(schema), P(" FROM "), Q(role), P(";\n")]
    case RevokeSchema(ps, schema, role) => [P("REVOKE " + JoinComma(ps) + " ON SCHEMA "), Q(schema), P(" FROM "), Q(role), P(";\n")]
    case RevokeRole(member, role) => [P("REVOKE "), Q(member), P(" FROM "), Q(role), P(";\n")]
    case DropRole(role) => [P("DROP ROLE IF EXISTS "), Q(role), P(";\n")]
  }

  function TextOf(s: Statement): string { Render(Pieces(s)) }

  function Script(statements: seq<Statement>): string {
    if statements == [] then "" else Script(statements[..|statements| - 1]) + TextOf(statements[|statements| - 1])
  }

  lemma {:induction false} ScriptConcat(a: seq<Statement>, b: seq<Statement>)
    ensures Script(a + b) == Script(a) + Script(b)
  {
    if b == [] {
      assert a + b == a;
    } else {
      var init, s := b[..|b| - 1], b[|b| - 1];
      assert (a + b)[..|a + b| - 1] == a + init && (a + b)[|a + b| - 1] == s;
      hide TextOf;
      ScriptConcat(a, init);
      Regroup(Script(a), Script(init), TextOf(s));
    }
  }

  lemma Regroup<T>(a: seq<T>, b: seq<T>, c: seq<T>)
    ensures a + (b + c) == a + b + c
  {}

  lemma ScriptOne(s: Statement)
    ensures Script([s]) == TextOf(s)
  {
    assert [s][..0] == [] && "" + TextOf(s) == TextOf(s);
  }

  // Building the text

  /** Applying a created role; the schemas are visited in the order the loop happens to take. */
  method ApplyProjectDatabaseRoleCreate(r: Role, password: string) returns (sql: string, ghost order: seq<string>)
    ensures Enumerates(order, r)
    ensures sql == Script(CreateStatements(r, password, order))
  {
    sql := EnsureText(r.name);
    var alter := AlterText(r, password);
    sql := sql + alter;
    ghost var head := [EnsureRole(r.name), AlterRole(r.name, AttributesOf(r, password))];
    hide Script, TextOf, GrantMembers, GrantSchemas, Enumerates;
    SchemaScript([head[0]], [head[1]]);
    assert [head[0]] + [head[1]] == head;
    var members := MemberGrantsText(r);
    sql := sql + members;
    var grants;
    grants, order := SchemaGrantsText(r);
    ScriptConcat(head, GrantMembers(r, r.memberOf));
    EnumeratedKeys(order, r);
    ScriptConcat(head + GrantMembers(r, r.memberOf), GrantSchemas(r, order));
    sql := sql + grants;
  }

  method ApplyProjectDatabaseRoleDelete(r: Role) returns (sql: string, ghost order: seq<string>)
    ensures Enumerates(order, r)
    ensures sql == Script(DeleteStatements(r, order))
  {
    sql, order := SchemaRevokesText(r);
    hide Script, TextOf, RevokeMembers, RevokeSchemas, Enumerates;
    EnumeratedKeys(order, r);
    var members := MemberRevokesText(r);
    sql := sql + members;
    ScriptConcat(RevokeSchemas(r, order), RevokeMembers(r, r.memberOf));
    DropRoleText(r.name);
    AddStatement(RevokeSchemas(r, order) + RevokeMembers(r, r.memberOf), DropRole(r.name));
    sql := sql + ("DROP ROLE IF EXISTS " + QuoteDatabaseIdentifier(r.name) + ";\n");
  }

  lemma EnumeratedKeys(order: seq<string>, r: Role)
    requires Enumerates(order, r)
    ensures forall s :: s in order ==> s in r.schemaGrants
  {}

  method MemberGrantsText(r: Role) returns (sql: string)
    ensures sql == Script(GrantMembers(r, r.memberOf))
  {
    sql := "";
    hide TextOf;
    for i := 0 to |r.memberOf|
      invariant sql == Script(GrantMembers(r, r.memberOf[..i]))
    {
      var grant := TwoNameText("GRANT ", r.memberOf[i], " TO ", r.name);
      GrantRoleText(r.memberOf[i], r.name);
      AddStatement(GrantMembers(r, r.memberOf[..i]), GrantRole(r.memberOf[i], r.name));
      assert GrantMembers(r, r.memberOf[..i + 1]) == GrantMembers(r, r.memberOf[..i]) + [GrantRole(r.memberOf[i], r.name)];
      sql := sql + grant;
    }
    assert r.memberOf[..|r.memberOf|] == r.memberOf;
  }

  method MemberRevokesText(r: Role) returns (sql: string)
    ensures sql == Script(RevokeMembers(r, r.memberOf))
  {
    sql := "";
    hide TextOf;
    for i := 0 to |r.memberOf|
      invariant sql == Script(RevokeMembers(r, r.memberOf[..i]))
    {
      var revoke := TwoNameText("REVOKE ", r.memberOf[i], " FROM ", r.name);
      RevokeRoleText(r.memberOf[i], r.name);
      AddStatement(RevokeMembers(r, r.memberOf[..i]), RevokeRole(r.memberOf[i], r.name));
      assert RevokeMembers(r, r.memberOf[..i + 1]) == RevokeMembers(r, r.memberOf[..i]) + [RevokeRole(r.memberOf[i], r.name)];
      sql := sql + revoke;
    }
    assert r.memberOf[..|r.memberOf|] == r.memberOf;
  }

  method EnsureText(role: string) returns (text: string)
    ensures text == TextOf(EnsureRole(role))
  {
    text := "DO $$ BEGIN\n" + EXISTS + QuoteDatabaseLiteral(role)
      + ") THEN\nCREATE ROLE " + QuoteDatabaseIdentifier(role) + ";\nEND IF;\nEND $$;\n";
    EnsureRoleText(role, text);
  }

  method AlterText(r: Role, password: string) returns (text: string)
    ensures text == TextOf(AlterRole(r.name, AttributesOf(r, password)))
  {
    text := "ALTER ROLE " + QuoteDatabaseIdentifier(r.name);
    if r.login {
      text := text + " LOGIN PASSWORD " + QuoteDatabaseLiteral(password);
    } else {
      text := text + " NOLOGIN";
    }
    ghost var head := text;
    var inherit := if r.inherit then " INHERIT" else " NOINHERIT";
    text := text + inherit;
    var bypass := if r.bypassRLS then " BYPASSRLS" else " NOBYPASSRLS";
    text := text + bypass;
    var limit := "";
    if r.connectionLimit != 0 { limit := " CONNECTION LIMIT " + Itoa(r.connectionLimit); }
    text := text + limit;
    text := text + ";\n";
    RegroupOptions(head, inherit, bypass, limit, ";\n");
    AlterRoleText(r.name, AttributesOf(r, password), head);
  }

  method TwoNameText(verb: string, first: string, link: string, second: string) returns (text: string)
    ensures text == verb + QuoteDatabaseIdentifier(first) + link + QuoteDatabaseIdentifier(second) + ";\n"
  {
    text := verb + QuoteDatabaseIdentifier(first) + link + QuoteDatabaseIdentifier(second) + ";\n";
  }

  method SchemaGrantsText(r: Role) returns (sql: string, ghost order: seq<string>)
    ensures Enumerates(order, r)
    ensures sql == Script(GrantSchemas(r, order))
  {
    hide Script, TextOf;
    sql, order := "", [];
    EmptyScript();
    var rest := r.schemaGrants.Keys;
    while rest != {}
      invariant rest <= r.schemaGrants.Keys
      invariant Visited(order, rest, r)
      invariant sql == Script(GrantSchemas(r, order))
      decreases rest
    {
      var schema :| schema in rest;
      rest := rest - {schema};
      var schemaPrivileges, tablePrivileges := DatabaseRoleGrantPrivileges(r.schemaGrants[schema]);
      var text := "";
      if |schemaPrivileges| > 0 {
        text := TwoNameText("GRANT " + JoinComma(schemaPrivileges) + " ON SCHEMA ", schema, " TO ", r.name);
        OnSchemaText(schemaPrivileges, schema, r.name);
      }
      ghost var first := text;
      if |tablePrivileges| > 0 {
        var more := TwoNameText("GRANT " + JoinComma(tablePrivileges) + " ON ALL TABLES IN SCHEMA ", schema, " TO ", r.name);
        text := text + more;
        OnTablesText(tablePrivileges, schema, r.name);
      }
      SchemaScript(if |schemaPrivileges| > 0 then [GrantSchema(schemaPrivileges, schema, r.name)] else [],
                   if |tablePrivileges| > 0 then [GrantTables(tablePrivileges, schema, r.name)] else []);
      VisitNext(order, schema, rest, r);
      ScriptConcat(GrantSchemas(r, order), SchemaGrantStatements(r, schema));
      sql := sql + text;
      order := order + [schema];
    }
  }

  method SchemaRevokesText(r: Role) returns (sql: string, ghost order: seq<string>)
    ensures Enumerates(order, r)
    ensures sql == Script(RevokeSchemas(r, order))
  {
    hide Script, TextOf;
    sql, order := "", [];
    EmptyScript();
    var rest := r.schemaGrants.Keys;
    while rest != {}
      invariant rest <= r.schemaGrants.Keys
      invariant Visited(order, rest, r)
      invariant sql == Script(RevokeSchemas(r, order))
      decreases rest
    {
      var schema :| schema in rest;
      rest := rest - {schema};
      var schemaPrivileges, tablePrivileges := DatabaseRoleGrantPrivileges(r.schemaGrants[schema]);
      var text := "";
      if |tablePrivileges| > 0 {
        text := TwoNameText("REVOKE " + JoinComma(tablePrivileges) + " ON ALL TABLES IN SCHEMA ", schema, " FROM ", r.name);
        OffTablesText(tablePrivileges, schema, r.name);
      }
      if |schemaPrivileges| > 0 {
        var more := TwoNameText("REVOKE " + JoinComma(schemaPrivileges) + " ON SCHEMA ", schema, " FROM ", r.name);
        text := text + more;
        OffSchemaText(schemaPrivileges, schema, r.name);
      }
      SchemaScript(if |tablePrivileges| > 0 then [RevokeTables(tablePrivileges, schema, r.name)] else [],
                   if |schemaPrivileges| > 0 then [RevokeSchema(schemaPrivileges, schema, r.name)] else []);
      VisitNext(order, schema, rest, r);
      ScriptConcat(RevokeSchemas(r, order), SchemaRevokeStatements(r, schema));
      sql := sql + text;
      order := order + [schema];
    }
  }

  /** The part of the grant map that a loop has visited. */
  ghost predicate Visited(order: seq<string>, rest: set<string>, r: Role) {
    && (forall s :: s in order <==> s in r.schemaGrants && s !in rest)
    && (forall i, j :: 0 <= i < j < |order| ==> order[i] != order[j])
  }

  lemma VisitNext(order: seq<string>, schema: string, rest: set<string>, r: Role)
    requires schema in r.schemaGrants && schema !in rest && Visited(order, rest + {schema}, r)
    ensures Visited(order + [schema], rest, r)
    ensures GrantSchemas(r, order + [schema]) == GrantSchemas(r, order) + SchemaGrantStatements(r, schema)
    ensures RevokeSchemas(r, order + [schema]) == RevokeSchemas(r, order) + SchemaRevokeStatements(r, schema)
  {
    assert (order + [schema])[..|order|] == order;
  }

  lemma EmptyScript()
    ensures Script([]) == ""
  {}

  lemma AddStatement(done: seq<Statement>, s: Statement)
    ensures Script(done + [s]) == Script(done) + TextOf(s)
  {
    assert (done + [s])[..|done|] == done;
  }

  lemma SchemaScript(a: seq<Statement>, b: seq<Statement>)
    requires |a| <= 1 && |b| <= 1
    ensures Script(a + b) == (if a == [] then "" else TextOf(a[0])) + (if b == [] then "" else TextOf(b[0]))
  {
    ScriptConcat(a, b);
    if a != [] { ScriptOne(a[0]); assert a == [a[0]]; }
    if b != [] { ScriptOne(b[0]); assert b == [b[0]]; }
  }

  lemma RegroupOptions(head: string, a: string, b: string, c: string, d: string)
    ensures head + a + b + c + d == head + (a + b + c + d)
  {}

  // The text of each statement

  lemma TwoNames(a: string, x: string, b: string, y: string)
    ensures Render([P(a), Q(x), P(b), Q(y), P(";\n")])
            == a + QuoteDatabaseIdentifier(x) + b + QuoteDatabaseIdentifier(y) + ";\n"
  {
    hide QuoteDatabaseIdentifier;
    RenderFive(P(a), Q(x), P(b), Q(y), P(";\n"));
  }

  lemma RenderFive(a: Piece, b: Piece, c: Piece, d: Piece, e: Piece)
    ensures Render([a, b, c, d, e]) == PieceText(a) + PieceText(b) + PieceText(c) + PieceText(d) + PieceText(e)
  {
    hide PieceText;
    RenderCons(a, [b, c, d, e]);
    RenderCons(b, [c, d, e]);
    RenderCons(c, [d, e]);
    RenderCons(d, [e]);
    RenderCons(e, []);
    assert Render([]) == "";
    hide Render;
    assert [a] + [b, c, d, e] == [a, b, c, d, e] && [b] + [c, d, e] == [b, c, d, e] && [c] + [d, e] == [c, d, e]
        && [d] + [e] == [d, e] && [e] + [] == [e];
    Regroup5(PieceText(a), PieceText(b), PieceText(c), PieceText(d), PieceText(e));
  }

  lemma RenderThree(a: Piece, b: Piece, c: Piece)
    ensures Render([a, b, c]) == PieceText(a) + PieceText(b) + PieceText(c)
  {
    hide PieceText;
    RenderCons(a, [b, c]);
    RenderCons(b, [c]);
    RenderCons(c, []);
    assert Render([]) == "";
    hide Render;
    assert [a] + [b, c] == [a, b, c] && [b] + [c] == [b, c] && [c] + [] == [c];
    Regroup3(PieceText(a), PieceText(b), PieceText(c));
  }

  lemma GrantRoleText(member: string, role: string)
    ensures TextOf(GrantRole(member, role))
            == "GRANT " + QuoteDatabaseIdentifier(member) + " TO " + QuoteDatabaseIdentifier(role) + ";\n"
  {
    hide QuoteDatabaseIdentifier, Render;
    TwoNames("GRANT ", member, " TO ", role);
  }

  lemma RevokeRoleText(member: string, role: string)
    ensures TextOf(RevokeRole(member, role))
            == "REVOKE " + QuoteDatabaseIdentifier(member) + " FROM " + QuoteDatabaseIdentifier(role) + ";\n"
  {
    hide QuoteDatabaseIdentifier, Render;
    TwoNames("REVOKE ", member, " FROM ", role);
  }

  lemma OnSchemaText(ps: seq<string>, schema: string, role: string)
    ensures TextOf(GrantSchema(ps, schema, role))
            == "GRANT " + JoinComma(ps) + " ON SCHEMA " + QuoteDatabaseIdentifier(schema) + " TO " + QuoteDatabaseIdentifier(role) + ";\n"
  {
    hide QuoteDatabaseIdentifier, Render, JoinComma;
    TwoNames("GRANT " + JoinComma(ps) + " ON SCHEMA ", schema, " TO ", role);
  }

  lemma OnTablesText(ps: seq<string>, schema: string, role: string)
    ensures TextOf(GrantTables(ps, schema, role))
            == "GRANT " + JoinComma(ps) + " ON ALL TABLES IN SCHEMA " + QuoteDatabaseIdentifier(schema) + " TO " + QuoteDatabaseIdentifier(role) + ";\n"
  {
    hide QuoteDatabaseIdentifier, Render, JoinComma;
    TwoNames("GRANT " + JoinComma(ps) + " ON ALL TABLES IN SCHEMA ", schema, " TO ", role);
  }

  lemma OffTablesText(ps: seq<string>, schema: string, role: string)
    ensures TextOf(RevokeTables(ps, schema, role))
            == "REVOKE " + JoinComma(ps) + " ON ALL TABLES IN SCHEMA " + QuoteDatabaseIdentifier(schema) + " FROM " + QuoteDatabaseIdentifier(role) + ";\n"
  {
    hide QuoteDatabaseIdentifier, Render, JoinComma;
    TwoNames("REVOKE " + JoinComma(ps) + " ON ALL TABLES IN SCHEMA ", schema, " FROM ", role);
  }

  lemma OffSchemaText(ps: seq<string>, schema: string, role: string)
    ensures TextOf(RevokeSchema(ps, schema, role))
            == "REVOKE " + JoinComma(ps) + " ON SCHEMA " + QuoteDatabaseIdentifier(schema) + " FROM " + QuoteDatabaseIdentifier(role) + ";\n"
  {
    hide QuoteDatabaseIdentifier, Render, JoinComma;
    TwoNames("REVOKE " + JoinComma(ps) + " ON SCHEMA ", schema, " FROM ", role);
  }

  lemma DropRoleText(role: string)
    ensures TextOf(DropRole(role)) == "DROP ROLE IF EXISTS " + QuoteDatabaseIdentifier(role) + ";\n"
  {
    hide QuoteDatabaseIdentifier, Render;
    RenderThree(P("DROP ROLE IF EXISTS "), Q(role), P(";\n"));
  }

  lemma AlterRoleText(role: string, a: Attributes, head: string)
    requires head == "ALTER ROLE " + QuoteDatabaseIdentifier(role)
                     + if a.password.Some? then " LOGIN PASSWORD " + QuoteDatabaseLiteral(a.password.value) else " NOLOGIN"
    ensures TextOf(AlterRole(role, a)) == head + Options(a)
  {
    hide QuoteDatabaseIdentifier, QuoteDatabaseLiteral, Render, Options;
    var alter, name, options := "ALTER ROLE ", QuoteDatabaseIdentifier(role), Options(a);
    if a.password.Some? {
      RenderFive(P(alter), Q(role), P(" LOGIN PASSWORD "), L(a.password.value), P(options));
      RegroupLogin(alter, name, " LOGIN PASSWORD ", QuoteDatabaseLiteral(a.password.value), options);
    } else {
      RenderThree(P(alter), Q(role), P(" NOLOGIN" + options));
      Regroup(alter + name, " NOLOGIN", options);
    }
  }

  lemma RegroupLogin(a: string, b: string, c: string, d: string, e: string)
    ensures a + b + (c + d) + e == a + b + c + d + e
  {}

  lemma EnsureRoleText(role: string, text: string)
    requires text == "DO $$ BEGIN\n" + EXISTS + QuoteDatabaseLiteral(role)
                     + ") THEN\nCREATE ROLE " + QuoteDatabaseIdentifier(role) + ";\nEND IF;\nEND $$;\n"
    ensures text == TextOf(EnsureRole(role))
  {
    var open, d, close := "DO ", "$$", ";\n";
    hide QuoteDatabaseIdentifier, QuoteDatabaseLiteral, Render;
    assert Delimiter("") == d;
    assert "DO $$ BEGIN\n" == open + d + " BEGIN\n";
    Regroup(open + d, " BEGIN\n", EXISTS);
    assert ";\nEND IF;\nEND $$;\n" == EXISTS_END + d + close;
    RenderThree(P(open), D("", EnsureBody(role)), P(close));
    RegroupBlock(open, d, EXISTS_START, QuoteDatabaseLiteral(role), EXISTS_MIDDLE, QuoteDatabaseIdentifier(role), EXISTS_END, close);
  }

  lemma RegroupBlock(open: string, d: string, start: string, x: string, mid: string, y: string, end: string, close: string)
    ensures (open + d + start) + x + mid + y + (end + d + close) == open + (d + (start + x + mid + y + end) + d) + close
  {}

  // Lexing the text

  /** Texts that may stand between quoted names. */
  ghost predicate Printable(s: Statement) {
    match s
    case EnsureRole(role) => !Contains(role, Delimiter(""))
    case GrantSchema(ps, _, _) => forall p :: p in ps ==> Plain(p)
    case GrantTables(ps, _, _) => forall p :: p in ps ==> Plain(p)
    case RevokeTables(ps, _, _) => forall p :: p in ps ==> Plain(p)
    case RevokeSchema(ps, _, _) => forall p :: p in ps ==> Plain(p)
    case _ => true
  }

  function ScriptPieces(statements: seq<Statement>): seq<Piece> {
    if statements == [] then [] else ScriptPieces(statements[..|statements| - 1]) + Pieces(statements[|statements| - 1])
  }

  lemma {:induction false} JoinCommaPlain(ps: seq<string>)
    requires forall p :: p in ps ==> Plain(p)
    ensures Plain(JoinComma(ps))
  {
    if |ps| > 1 {
      JoinCommaPlain(ps[..|ps| - 1]);
      assert ps[|ps| - 1] in ps;
    } else if |ps| == 1 {
      assert ps[0] in ps;
    }
  }

  lemma FixedAround(a: string, b: string, c: string)
    requires Fixed(a) && Plain(b) && Fixed(c)
    ensures Fixed(a + b + c)
  {}

  lemma OptionsFixed(a: Attributes)
    ensures Fixed(Options(a)) && Fixed(" NOLOGIN" + Options(a))
  {
    assert Plain(";\n") && Plain(" NOLOGIN");
    hide Plain, InheritText, BypassText, LimitText;
    PlainConcat(InheritText(a), BypassText(a));
    PlainConcat(InheritText(a) + BypassText(a), LimitText(a));
    PlainConcat(InheritText(a) + BypassText(a) + LimitText(a), ";\n");
    PlainConcat(" NOLOGIN", Options(a));
  }

  lemma ExistsPartsPlain()
    ensures Plain(" BEGIN\n") && " BEGIN\n" != "" && Plain("IF NOT EXISTS (SELECT 1 ") && Plain("FROM pg_roles WHERE rolname = ")
  {}

  lemma PlainNotEmpty(s: string, t: string)
    requires Plain(s) && Plain(t) && s != ""
    ensures Fixed(s + t) && '$' !in s + t
  {
    PlainConcat(s, t);
  }

  lemma ExistsPlain()
    ensures Fixed(EXISTS_START) && '$' !in EXISTS_START
  {
    hide Plain, Fixed;
    ExistsPartsPlain();
    PlainConcat("IF NOT EXISTS (SELECT 1 ", "FROM pg_roles WHERE rolname = ");
    PlainNotEmpty(" BEGIN\n", EXISTS);
  }

  /** The guard block is read as one body exactly if the name does not contain "$$". */
  lemma EnsureBodyEnds(role: string)
    ensures EndsBody("", EnsureBody(role)) <==> !Contains(role, Delimiter(""))
  {
    var d := Delimiter("");
    assert d == "$$" && d[0] == '$';
    var end := ";\nEND IF;\nEND";
    assert EXISTS_END == end + [' '];
    ExistsPlain();
    NothingContains(EXISTS_START, '$', d);
    NothingContains(EXISTS_MIDDLE, '$', d);
    NothingContains(end, '$', d);
    hide Contains, Quote, EndsBody;
    var tail := EXISTS_MIDDLE + Quote(role, '"') + end;
    ContainsQuoted(EXISTS_MIDDLE, role, '"', end, d);
    ContainsQuoted(EXISTS_START, role, '\'', tail, d);
    EndsBodyIff("", EXISTS_START + Quote(role, '\'') + tail, ' ');
    EnsureBodyText(role, end);
  }

  /** The guard block itself names the role twice, as a literal and as an identifier. */
  lemma EnsureBodyLexes(role: string)
    ensures Lex(EnsureBody(role)) == Some(Tokens([P(EXISTS_START), L(role), P(EXISTS_MIDDLE), Q(role), P(EXISTS_END)]))
  {
    ExistsFixed();
    EnsureBodyPieces(role);
    hide *;
    TwoQuoted(EXISTS_START, L(role), EXISTS_MIDDLE, Q(role), EXISTS_END);
    LexRender([P(EXISTS_START), L(role), P(EXISTS_MIDDLE), Q(role), P(EXISTS_END)]);
  }

  lemma ExistsFixed()
    ensures Fixed(EXISTS_START) && Fixed(EXISTS_MIDDLE) && Fixed(EXISTS_END)
  {
    hide *;
    ExistsPlain();
    ThenFixed();
  }

  lemma ThenFixed()
    ensures Fixed(EXISTS_MIDDLE) && Fixed(EXISTS_END)
  {}

  lemma EnsureBodyPieces(role: string)
    ensures EnsureBody(role) == EXISTS_START + PieceText(L(role)) + EXISTS_MIDDLE + PieceText(Q(role)) + EXISTS_END
    ensures Quoted(L(role)) && Quoted(Q(role))
  {
    hide Quote;
  }

  lemma EnsureBodyText(role: string, end: string)
    requires EXISTS_END == end + [' ']
    ensures EnsureBody(role) == EXISTS_START + Quote(role, '\'') + (EXISTS_MIDDLE + Quote(role, '"') + end) + [' ']
  {
    hide Quote;
    RegroupBody(EXISTS_START, Quote(role, '\''), EXISTS_MIDDLE, Quote(role, '"'), end, [' ']);
  }

  lemma RegroupBody(a: string, b: string, c: string, d: string, e: string, f: string)
    ensures a + b + c + d + (e + f) == a + b + (c + d + e) + f
  {}

  ghost predicate StatementShape(ps: seq<Piece>) {
    Fit(ps) && |ps| >= 3 && ps[0].P? && ps[0].text != "" && ps[|ps| - 1].P? && ps[|ps| - 1].text != "" && !EndsInWord(ps[|ps| - 1].text)
  }

  lemma TwoNamesShape(a: string, x: string, b: string, y: string)
    requires Fixed(a) && Fixed(b)
    ensures StatementShape([P(a), Q(x), P(b), Q(y), P(";\n")])
  {
    assert Fixed(";\n") && !EndsInWord(";\n");
    hide Fit, Fixed;
    TwoQuoted(a, Q(x), b, Q(y), ";\n");
  }

  lemma PrivilegesShape(verb: string, ps: seq<string>, what: string, schema: string, link: string, role: string)
    requires Fixed(verb) && Fixed(what) && Fixed(link) && forall p :: p in ps ==> Plain(p)
    ensures StatementShape([P(verb + JoinComma(ps) + what), Q(schema), P(link), Q(role), P(";\n")])
  {
    JoinCommaPlain(ps);
    FixedAround(verb, JoinComma(ps), what);
    hide StatementShape, JoinComma, Fixed;
    TwoNamesShape(verb + JoinComma(ps) + what, schema, link, role);
  }

  lemma EnsureShape(role: string)
    requires !Contains(role, Delimiter(""))
    ensures StatementShape(Pieces(EnsureRole(role)))
  {
    EnsureBodyEnds(role);
    assert AllWord("") && !EndsInWord("DO ") && !EndsInWord(";\n") && Plain("DO ") && Plain(";\n");
    hide EnsureBody, EndsBody, Contains;
    var ps := Pieces(EnsureRole(role));
    assert PieceOk(ps[0]) && PieceOk(ps[1]) && PieceOk(ps[2]);
  }

  lemma AlterShape(role: string, a: Attributes)
    ensures StatementShape(Pieces(AlterRole(role, a)))
  {
    hide Fixed, Options, StatementShape, EndsInWord;
    OptionsFixed(a);
    OptionsEnd(a);
    AlterTexts();
    if a.password.Some? { WithPasswordShape("ALTER ROLE ", role, " LOGIN PASSWORD ", a.password.value, Options(a)); }
    else { NoPasswordShape("ALTER ROLE ", role, " NOLOGIN" + Options(a)); }
  }

  lemma AlterTexts()
    ensures Fixed("ALTER ROLE ") && Fixed(" LOGIN PASSWORD ")
  {}

  lemma WithPasswordShape(verb: string, role: string, link: string, password: string, options: string)
    requires Fixed(verb) && Fixed(link) && Fixed(options) && !EndsInWord(options)
    ensures StatementShape([P(verb), Q(role), P(link), L(password), P(options)])
  {
    hide Fit;
    TwoQuoted(verb, Q(role), link, L(password), options);
  }

  lemma NoPasswordShape(verb: string, role: string, options: string)
    requires Fixed(verb) && Fixed(options) && !EndsInWord(options)
    ensures StatementShape([P(verb), Q(role), P(options)])
  {
    hide Fit;
    OneQuoted(verb, Q(role), options);
  }

  lemma OptionsEnd(a: Attributes)
    ensures Options(a) != "" && !EndsInWord(Options(a)) && !EndsInWord(" NOLOGIN" + Options(a))
  {
    assert Options(a)[|Options(a)| - 1] == ";\n"[1];
  }

  lemma GrantTexts()
    ensures Fixed("GRANT ") && Fixed(" TO ") && Fixed("REVOKE ") && Fixed(" FROM ")
    ensures Fixed(" ON SCHEMA ") && Fixed(" ON ALL TABLES IN SCHEMA ")
  {}

  lemma PieceShape(s: Statement)
    requires Printable(s)
    ensures StatementShape(Pieces(s))
  {
    hide Fit, Fixed, StatementShape, JoinComma;
    GrantTexts();
    match s
    case EnsureRole(role) => EnsureShape(role);
    case AlterRole(role, a) => AlterShape(role, a);
    case GrantRole(member, role) => TwoNamesShape("GRANT ", member, " TO ", role);
    case GrantSchema(ps, schema, role) => PrivilegesShape("GRANT ", ps, " ON SCHEMA ", schema, " TO ", role);
    case GrantTables(ps, schema, role) => PrivilegesShape("GRANT ", ps, " ON ALL TABLES IN SCHEMA ", schema, " TO ", role);
    case RevokeTables(ps, schema, role) => PrivilegesShape("REVOKE ", ps, " ON ALL TABLES IN SCHEMA ", schema, " FROM ", role);
    case RevokeSchema(ps, schema, role) => PrivilegesShape("REVOKE ", ps, " ON SCHEMA ", schema, " FROM ", role);
    case RevokeRole(member, role) => TwoNamesShape("REVOKE ", member, " FROM ", role);
    case DropRole(role) => DropShape(role);
  }

  lemma DropShape(role: string)
    ensures StatementShape(Pieces(DropRole(role)))
  {
    assert Fixed("DROP ROLE IF EXISTS ") && Fixed(";\n") && !EndsInWord(";\n");
    hide Fit, Fixed;
    OneQuoted("DROP ROLE IF EXISTS ", Q(role), ";\n");
  }

  lemma {:induction false} ScriptShape(statements: seq<Statement>)
    requires forall s :: s in statements ==> Printable(s)
    ensures statements == [] ==> ScriptPieces(statements) == []
    ensures statements != [] ==> StatementShape(ScriptPieces(statements))
    ensures Render(ScriptPieces(statements)) == Script(statements)
  {
    if statements == [] { return; }
    var init, s := statements[..|statements| - 1], statements[|statements| - 1];
    assert s in statements && forall t :: t in init ==> t in statements;
    assert ScriptPieces(statements) == ScriptPieces(init) + Pieces(s) && Script(statements) == Script(init) + TextOf(s);
    hide Printable, Pieces, StatementShape, ScriptPieces, Script, Render;
    ScriptShape(init);
    PieceShape(s);
    RenderConcat(ScriptPieces(init), Pieces(s));
    if init == [] {
      assert [] + Pieces(s) == Pieces(s);
    } else {
      ShapeConcat(ScriptPieces(init), Pieces(s));
    }
  }

  lemma ShapeConcat(a: seq<Piece>, b: seq<Piece>)
    requires StatementShape(a) && StatementShape(b)
    ensures StatementShape(a + b)
  {
    FitConcat(a, b);
  }

  /** The script lexes to exactly the tokens of its statements: every name, literal and
      password is read back as given. */
  lemma ScriptLexes(statements: seq<Statement>)
    requires forall s :: s in statements ==> Printable(s)
    ensures Lex(Script(statements)) == Some(Tokens(ScriptPieces(statements)))
  {
    ScriptShape(statements);
    assert Fit(ScriptPieces(statements));
    hide *;
    LexRender(ScriptPieces(statements));
  }

  lemma {:induction false} GrantsPlain(ps: Privileges, grants: seq<string>)
    requires forall p :: p in ps.schema + ps.table ==> Plain(p)
    ensures var after := AddGrants(ps, grants); forall p :: p in after.schema + after.table ==> Plain(p)
  {
    if grants == [] { return; }
    GrantsPlain(ps, grants[..|grants| - 1]);
    hide Plain, AddGrants, AddGrant;
    AddGrantPlain(AddGrants(ps, grants[..|grants| - 1]), grants[|grants| - 1]);
    AddGrantsStep(ps, grants);
  }

  lemma AddGrantsStep(ps: Privileges, grants: seq<string>)
    requires grants != []
    ensures AddGrants(ps, grants) == AddGrant(AddGrants(ps, grants[..|grants| - 1]), grants[|grants| - 1])
  {}

  lemma AddGrantPlain(ps: Privileges, grant: string)
    requires forall p :: p in ps.schema + ps.table ==> Plain(p)
    ensures var after := AddGrant(ps, grant); forall p :: p in after.schema + after.table ==> Plain(p)
  {
    hide Plain;
    KeywordsPlain();
  }

  lemma KeywordsPlain()
    ensures Plain("USAGE") && Plain("CREATE") && Plain("SELECT") && Plain("INSERT") && Plain("UPDATE") && Plain("DELETE")
    ensures Plain("ALL PRIVILEGES")
  {}

  lemma {:induction false} SchemaStatementsPrintable(r: Role, order: seq<string>)
    requires forall s :: s in order ==> s in r.schemaGrants
    ensures forall s :: s in GrantSchemas(r, order) ==> Printable(s)
    ensures forall s :: s in RevokeSchemas(r, order) ==> Printable(s)
  {
    if order == [] { return; }
    var last := order[|order| - 1];
    hide Printable, SchemaGrantStatements, SchemaRevokeStatements;
    SchemaStatementsPrintable(r, order[..|order| - 1]);
    OneSchemaPrintable(r, last);
  }

  lemma OneSchemaPrintable(r: Role, schema: string)
    requires schema in r.schemaGrants
    ensures forall s :: s in SchemaGrantStatements(r, schema) || s in SchemaRevokeStatements(r, schema) ==> Printable(s)
  {
    hide Plain, GrantPrivileges;
    PartsPlain(r, schema);
  }

  lemma PartsPlain(r: Role, schema: string)
    requires schema in r.schemaGrants
    ensures var ps := GrantPrivileges(r.schemaGrants[schema]);
            (forall p :: p in ps.schema ==> Plain(p)) && (forall p :: p in ps.table ==> Plain(p))
  {
    GrantsPlain(Privileges([], []), Text.Split(r.schemaGrants[schema], ','));
    var ps := GrantPrivileges(r.schemaGrants[schema]);
    hide Plain, GrantPrivileges;
    assert forall p :: p in ps.schema ==> p in ps.schema + ps.table;
    assert forall p :: p in ps.table ==> p in ps.schema + ps.table;
  }

  lemma PiecesStep(statements: seq<Statement>, s: Statement)
    ensures ScriptPieces(statements + [s]) == ScriptPieces(statements) + Pieces(s)
  {
    assert (statements + [s])[..|statements|] == statements;
  }

  lemma {:induction false} PiecesConcat(a: seq<Statement>, b: seq<Statement>)
    ensures ScriptPieces(a + b) == ScriptPieces(a) + ScriptPieces(b)
  {
    if b == [] {
      assert a + b == a;
    } else {
      hide *;
      var init, s := b[..|b| - 1], b[|b| - 1];
      assert b == init + [s] && a + b == (a + init) + [s];
      PiecesConcat(a, init);
      PiecesStep(init, s);
      PiecesStep(a + init, s);
      Regroup(ScriptPieces(a), ScriptPieces(init), Pieces(s));
    }
  }

  lemma PiecesOfEnsure(role: string)
    ensures ScriptPieces([EnsureRole(role)]) == [P("DO ")] + [D("", EnsureBody(role))] + [P(";\n")]
    ensures Fit([P("DO ")]) && Fit([P(";\n")]) && !EndsInWord("DO ") && AllWord("")
  {
    assert [EnsureRole(role)][..0] == [];
  }

  lemma FitAfterEnsure(statements: seq<Statement>)
    requires forall s :: s in statements ==> Printable(s)
    ensures Fit([P(";\n")] + ScriptPieces(statements))
    ensures Render(ScriptPieces(statements)) == Script(statements)
  {
    hide *;
    ScriptShape(statements);
    Semicolon();
    if statements == [] {
      assert [P(";\n")] + [] == [P(";\n")];
    } else {
      SemicolonFits(ScriptPieces(statements));
    }
  }

  lemma Semicolon()
    ensures Fit([P(";\n")])
  {
    FitOne(";\n");
  }

  lemma SemicolonFits(ps: seq<Piece>)
    requires StatementShape(ps)
    ensures Fit([P(";\n")] + ps)
  {
    Semicolon();
    hide Fit;
    FitConcat([P(";\n")], ps);
  }

  /** A script that starts with the guard block lexes as its statements exactly if the role's
      name does not contain "$$". */
  lemma EnsureScriptIff(role: string, rest: seq<Statement>)
    requires forall s :: s in rest ==> Printable(s)
    ensures Lex(Script([EnsureRole(role)] + rest)) == Some(Tokens(ScriptPieces([EnsureRole(role)] + rest)))
            <==> !Contains(role, Delimiter(""))
  {
    hide *;
    var e := EnsureRole(role);
    var body := EnsureBody(role);
    EnsureBodyEnds(role);
    PiecesOfEnsure(role);
    FitAfterEnsure(rest);
    PiecesConcat([e], rest);
    ScriptConcat([e], rest);
    FirstPieces(e);
    RenderConcat(ScriptPieces([e]), ScriptPieces(rest));
    assert [P("DO ")] + [D("", body)] + [P(";\n")] + ScriptPieces(rest)
        == [P("DO ")] + [D("", body)] + ([P(";\n")] + ScriptPieces(rest));
    DollarIff([P("DO ")], "", body, [P(";\n")] + ScriptPieces(rest));
  }

  lemma FirstPieces(s: Statement)
    ensures Script([s]) == Render(ScriptPieces([s]))
  {
    assert [s][..0] == [] && [] + Pieces(s) == Pieces(s);
    ScriptOne(s);
  }

  /** The create script lexes as its statements exactly if the role's name does not contain
      "$$"; the delete script always does. */
  lemma RoleScriptsLex(r: Role, password: string, order: seq<string>)
    requires Enumerates(order, r)
    ensures Lex(Script(CreateStatements(r, password, order))) == Some(Tokens(ScriptPieces(CreateStatements(r, password, order))))
            <==> !Contains(r.name, Delimiter(""))
    ensures Lex(Script(DeleteStatements(r, order))) == Some(Tokens(ScriptPieces(DeleteStatements(r, order))))
  {
    StatementsPrintable(r, password, order);
    hide *;
    EnsureScriptIff(r.name, AfterEnsure(r, password, order));
    ScriptLexes(DeleteStatements(r, order));
  }

  /** So both do for every role that the store admits. */
  lemma StoredRoleScriptsLex(r: Role, password: string, order: seq<string>)
    requires Enumerates(order, r) && IdentifierPattern(r.name)
    ensures Lex(Script(CreateStatements(r, password, order))) == Some(Tokens(ScriptPieces(CreateStatements(r, password, order))))
    ensures Lex(Script(DeleteStatements(r, order))) == Some(Tokens(ScriptPieces(DeleteStatements(r, order))))
  {
    NoDelimiterIn(r.name);
    hide *;
    RoleScriptsLex(r, password, order);
  }

  lemma NoDelimiterIn(name: string)
    requires IdentifierPattern(name)
    ensures !Contains(name, Delimiter(""))
  {
    assert Delimiter("")[0] == '$';
    NothingContains(name, '$', Delimiter(""));
  }

  function AfterEnsure(r: Role, password: string, order: seq<string>): seq<Statement>
    requires forall s :: s in order ==> s in r.schemaGrants
  {
    [AlterRole(r.name, AttributesOf(r, password))] + GrantMembers(r, r.memberOf) + GrantSchemas(r, order)
  }

  lemma StatementsPrintable(r: Role, password: string, order: seq<string>)
    requires Enumerates(order, r)
    ensures forall s :: s in order ==> s in r.schemaGrants
    ensures CreateStatements(r, password, order) == [EnsureRole(r.name)] + AfterEnsure(r, password, order)
    ensures forall s :: s in AfterEnsure(r, password, order) ==> Printable(s)
    ensures forall s :: s in DeleteStatements(r, order) ==> Printable(s)
  {
    SchemaStatementsPrintable(r, order);
    hide Contains, GrantSchemas, RevokeSchemas;
  }
}
