/** The role scripts mean their statements: lexed and read, they are the statements that they were
    made from (internal/api/project_database_role_handlers.go). */
module RoleMeaning {
  import opened DatabaseRoles
  import opened RoleReader
  import opened RoleSql
  import opened SqlText
  import opened SqlWords
  import opened Wrappers
  import Text

  lemma CommonWords()
    ensures AllWord("TO") && AllWord("FROM") && AllWord("DO") && AllWord("ON") && AllWord("ALL") && AllWord("IN")
    ensures AllWord("TABLES") && AllWord("SCHEMA") && AllWord("ALTER") && AllWord("ROLE") && AllWord("LOGIN")
  {}

  lemma MoreWords()
    ensures AllWord("PASSWORD") && AllWord("DROP") && AllWord("IF") && AllWord("EXISTS") && AllWord("BEGIN") && AllWord("NOT")
    ensures AllWord("SELECT") && AllWord("1") && AllWord("pg_roles") && AllWord("WHERE") && AllWord("rolname")
  {}

  lemma LinkTexts()
    ensures " " + "TO" + " " == " TO " && " " + "FROM" + " " == " FROM " && "DO" + ("" + " ") == "DO "
  {}

  lemma LinksAre()
    ensures Lex(" TO ") == Some([Word("TO")]) && Lex(" FROM ") == Some([Word("FROM")])
    ensures Lex("DO ") == Some([Word("DO")])
  {
    CommonWords();
    hide Lex, AllWord, Ends;
    LinkTexts();
    LedOne("TO");
    LedOne("FROM");
    BetweenIs(["TO"]);
    BetweenIs(["FROM"]);
    StartIsWords("DO", []);
    assert Words(["TO"]) == [Word("TO")] && Words(["FROM"]) == [Word("FROM")] && Words(["DO"] + []) == [Word("DO")];
  }

  lemma OnTexts()
    ensures " " + "ON" + (" " + "SCHEMA") + " " == " ON SCHEMA "
  {}

  lemma OnSchemaIs()
    ensures Lex(" ON SCHEMA ") == Some(Words(ON_SCHEMA))
  {
    CommonWords();
    OnTexts();
    hide Lex, AllWord, Words, Led;
    LedTwo("ON", "SCHEMA");
    BetweenIs(["ON", "SCHEMA"]);
  }

  lemma OnTablesText()
    ensures " " + "ON" + (" " + "ALL" + (" " + "TABLES" + (" " + "IN" + (" " + "SCHEMA")))) + " " == " ON ALL TABLES IN SCHEMA "
  {}

  lemma OnTablesIs()
    ensures Lex(" ON ALL TABLES IN SCHEMA ") == Some(Words(ON_TABLES))
  {
    CommonWords();
    OnTablesText();
    hide Lex, AllWord, Words, Led;
    LedFive("ON", "ALL", "TABLES", "IN", "SCHEMA");
    BetweenIs(["ON", "ALL", "TABLES", "IN", "SCHEMA"]);
  }

  lemma AlterTexts()
    ensures "ALTER" + (" " + "ROLE" + " ") == "ALTER ROLE "
    ensures " " + "LOGIN" + (" " + "PASSWORD") + " " == " LOGIN PASSWORD "
  {}

  lemma AlterIs()
    ensures Lex("ALTER ROLE ") == Some(Words(["ALTER", "ROLE"]))
    ensures Lex(" LOGIN PASSWORD ") == Some(Words(["LOGIN", "PASSWORD"]))
  {
    CommonWords();
    MoreWords();
    AlterTexts();
    hide Lex, AllWord, Words, Led;
    LedOne("ROLE");
    StartIsWords("ALTER", ["ROLE"]);
    assert ["ALTER"] + ["ROLE"] == ["ALTER", "ROLE"];
    LedTwo("LOGIN", "PASSWORD");
    BetweenIs(["LOGIN", "PASSWORD"]);
  }

  lemma DropText()
    ensures "DROP" + (" " + "ROLE" + (" " + "IF" + (" " + "EXISTS")) + " ") == "DROP ROLE IF EXISTS "
  {}

  lemma DropIs()
    ensures Lex("DROP ROLE IF EXISTS ") == Some(Words(["DROP", "ROLE", "IF", "EXISTS"]))
  {
    CommonWords();
    MoreWords();
    DropText();
    hide Lex, AllWord, Words, Led;
    LedThree("ROLE", "IF", "EXISTS");
    StartIsWords("DROP", ["ROLE", "IF", "EXISTS"]);
    assert ["DROP"] + ["ROLE", "IF", "EXISTS"] == ["DROP", "ROLE", "IF", "EXISTS"];
  }

  // Attributes

  lemma NumberIs(n: int)
    ensures Lex(Itoa(n) + ";\n") == Some(NumberWords(n) + [END])
  {
    hide Lex, Digits;
    EndIs();
    if n < 0 {
      DigitsBack(-n);
      WordIs(Digits(-n), ";\n", [END]);
      SymbolIs('-', Digits(-n) + ";\n", [Word(Digits(-n))] + [END]);
      assert Itoa(n) + ";\n" == ['-'] + (Digits(-n) + ";\n");
      assert [Symbol('-')] + ([Word(Digits(-n))] + [END]) == NumberWords(n) + [END];
    } else {
      DigitsBack(n);
      WordIs(Digits(n), ";\n", [END]);
    }
  }

  lemma LimitIs(a: Attributes)
    ensures Lex(LimitText(a) + ";\n") == Some(LimitWords(a.connectionLimit) + [END])
    ensures Ends(LimitText(a) + ";\n")
  {
    hide Lex, NumberWords, Itoa;
    if a.connectionLimit.None? {
      EndIs();
      assert "" + ";\n" == ";\n" && [] + [END] == [END];
      return;
    }
    var n := a.connectionLimit.value;
    var number := Itoa(n) + ";\n";
    NumberIs(n);
    BlankIs(' ', number);
    assert [' '] + number == " " + number;
    SpacedIs("LIMIT", " " + number, NumberWords(n) + [END]);
    SpacedIs("CONNECTION", " " + "LIMIT" + (" " + number), [Word("LIMIT")] + (NumberWords(n) + [END]));
    assert " CONNECTION LIMIT " == " " + "CONNECTION" + " " + "LIMIT" + " ";
    assert LimitText(a) + ";\n" == " " + "CONNECTION" + (" " + "LIMIT" + (" " + number));
    assert [Word("CONNECTION")] + ([Word("LIMIT")] + (NumberWords(n) + [END]))
        == Words(["CONNECTION", "LIMIT"]) + NumberWords(n) + [END];
  }

  lemma FlagWords()
    ensures AllWord("INHERIT") && AllWord("NOINHERIT") && AllWord("BYPASSRLS") && AllWord("NOBYPASSRLS") && AllWord("NOLOGIN")
    ensures " " + "INHERIT" == " INHERIT" && " " + "NOINHERIT" == " NOINHERIT" && " " + "NOLOGIN" == " NOLOGIN"
    ensures " " + "BYPASSRLS" == " BYPASSRLS" && " " + "NOBYPASSRLS" == " NOBYPASSRLS"
  {}

  lemma OptionsAre(a: Attributes)
    ensures Lex(Options(a)) == Some(OptionWords(a)) && Ends(Options(a))
  {
    FlagWords();
    hide Lex, LimitWords, AllWord, LimitText;
    var limit := LimitText(a) + ";\n";
    var inherit, bypass := if a.inherit then "INHERIT" else "NOINHERIT", if a.bypassRLS then "BYPASSRLS" else "NOBYPASSRLS";
    LimitIs(a);
    SpacedIs(bypass, limit, LimitWords(a.connectionLimit) + [END]);
    SpacedIs(inherit, " " + bypass + limit, [Word(bypass)] + (LimitWords(a.connectionLimit) + [END]));
    assert Options(a) == " " + inherit + (" " + bypass + limit);
  }

  lemma NoLoginIs(a: Attributes)
    ensures Lex(" NOLOGIN" + Options(a)) == Some(Words(["NOLOGIN"]) + OptionWords(a))
  {
    FlagWords();
    hide Lex, AllWord, Options, OptionWords;
    OptionsAre(a);
    SpacedIs("NOLOGIN", Options(a), OptionWords(a));
    assert Words(["NOLOGIN"]) == [Word("NOLOGIN")];
  }

  // Privileges

  lemma PrivilegeIs(p: string, rest: string, ts: seq<Token>)
    requires Privilege(p) && Ends(rest) && Lex(rest) == Some(ts)
    ensures Lex(p + rest) == Some(PrivilegeWords(p) + ts)
  {
    hide Lex;
    if p == "ALL PRIVILEGES" {
      SpacedIs("PRIVILEGES", rest, ts);
      WordIs("ALL", " " + "PRIVILEGES" + rest, [Word("PRIVILEGES")] + ts);
      assert "ALL" + (" " + "PRIVILEGES" + rest) == "ALL" + " " + "PRIVILEGES" + rest && "ALL" + " " + "PRIVILEGES" == "ALL PRIVILEGES";
      assert [Word("ALL")] + ([Word("PRIVILEGES")] + ts) == Words(["ALL", "PRIVILEGES"]) + ts;
    } else {
      WordIs(p, rest, ts);
    }
  }

  lemma {:induction false} JoinCommaFront(p: string, ps: seq<string>)
    requires ps != []
    ensures JoinComma([p] + ps) == p + (", " + JoinComma(ps))
  {
    var all, init, last := [p] + ps, ps[..|ps| - 1], ps[|ps| - 1];
    assert all[..|all| - 1] == [p] + init && all[|all| - 1] == last;
    if init == [] {
      assert [p] + init == [p] && JoinComma([p]) == p && ps == [last] && JoinComma(ps) == last;
      assert p + ", " + last == p + (", " + last);
    } else {
      JoinCommaFront(p, init);
      assert JoinComma(ps) == JoinComma(init) + ", " + last;
      assert p + (", " + JoinComma(init)) + ", " + last == p + (", " + (JoinComma(init) + ", " + last));
    }
  }

  lemma JoinCommaOne(p: string)
    ensures JoinComma([p]) == p
  {}

  lemma CommaEnds(rest: string)
    ensures Ends(", " + rest)
  {}

  lemma CommaIs(rest: string, ts: seq<Token>)
    requires Lex(rest) == Some(ts)
    ensures Lex(", " + rest) == Some([Symbol(',')] + ts)
  {
    hide Lex;
    BlankIs(' ', rest);
    assert [' '] + rest == " " + rest && [','] + (" " + rest) == ", " + rest;
    SymbolIs(',', " " + rest, ts);
  }

  lemma {:induction false} ListIs(ps: seq<string>, rest: string, ts: seq<Token>)
    requires PrivilegeList(ps) && Ends(rest) && Lex(rest) == Some(ts)
    ensures Lex(JoinComma(ps) + rest) == Some(ListWords(ps) + ts)
    decreases |ps|
  {
    hide *;
    ListUnfold(ps);
    if |ps| == 1 {
      JoinCommaOne(ps[0]);
      PrivilegeIs(ps[0], rest, ts);
    } else {
      NotEmpty(ps);
      var p, more := ps[0], ps[1..];
      var later := JoinComma(more) + rest;
      ListIs(more, rest, ts);
      CommaIs(later, ListWords(more) + ts);
      CommaEnds(later);
      PrivilegeIs(p, ", " + later, [Symbol(',')] + (ListWords(more) + ts));
      JoinCommaFront(p, more);
      assert JoinComma(ps) + rest == p + (", " + later);
      assert PrivilegeWords(p) + ([Symbol(',')] + (ListWords(more) + ts)) == ListWords(ps) + ts;
    }
  }

  lemma VerbIs(verb: string, ps: seq<string>, on: string, ts: seq<Token>)
    requires verb != "" && AllWord(verb) && PrivilegeList(ps) && Ends(on) && Lex(on) == Some(ts)
    ensures Lex(verb + " " + JoinComma(ps) + on) == Some([Word(verb)] + (ListWords(ps) + ts))
  {
    hide Lex, JoinComma, ListWords, PrivilegeList, AllWord;
    var list := JoinComma(ps) + on;
    ListIs(ps, on, ts);
    BlankIs(' ', list);
    assert [' '] + list == " " + list;
    WordIs(verb, " " + list, ListWords(ps) + ts);
    assert verb + (" " + list) == verb + " " + JoinComma(ps) + on;
  }

  // Statements

  lemma TokensFive(a: Piece, b: Piece, c: Piece, d: Piece, e: Piece)
    ensures Tokens([a, b, c, d, e]) == TokensOf(a) + (TokensOf(b) + (TokensOf(c) + (TokensOf(d) + TokensOf(e))))
  {
    hide TokensOf;
    assert Tokens([]) == [];
    RenderCons(a, [b, c, d, e]);
    RenderCons(b, [c, d, e]);
    RenderCons(c, [d, e]);
    RenderCons(d, [e]);
    RenderCons(e, []);
    hide Tokens;
    assert [a] + [b, c, d, e] == [a, b, c, d, e] && [b] + [c, d, e] == [b, c, d, e] && [c] + [d, e] == [c, d, e]
        && [d] + [e] == [d, e] && [e] + [] == [e];
    OneLess(TokensOf(e));
  }

  lemma TokensThree(a: Piece, b: Piece, c: Piece)
    ensures Tokens([a, b, c]) == TokensOf(a) + (TokensOf(b) + TokensOf(c))
  {
    hide TokensOf;
    assert Tokens([]) == [];
    RenderCons(a, [b, c]);
    RenderCons(b, [c]);
    RenderCons(c, []);
    hide Tokens;
    assert [a] + [b, c] == [a, b, c] && [b] + [c] == [b, c] && [c] + [] == [c];
    OneLess(TokensOf(c));
  }

  lemma FixedToken(text: string, ts: seq<Token>)
    requires Lex(text) == Some(ts)
    ensures TokensOf(P(text)) == ts
  {}

  lemma TwoNamesTokens(first: string, ts: seq<Token>, x: string, link: string, word: string, y: string)
    requires Lex(first) == Some(ts) && Lex(link) == Some([Word(word)])
    ensures Tokens([P(first), Q(x), P(link), Q(y), P(";\n")]) == ts + NamesWords(x, word, y)
  {
    hide Lex, Tokens;
    EndIs();
    TokensFive(P(first), Q(x), P(link), Q(y), P(";\n"));
    assert ts + ([Ident(x)] + ([Word(word)] + ([Ident(y)] + [END]))) == ts + NamesWords(x, word, y);
  }

  lemma MembershipTokens(verb: string, text: string, x: string, link: string, word: string, y: string)
    requires verb != "" && AllWord(verb) && text == verb + " " && Lex(link) == Some([Word(word)])
    ensures Tokens([P(text), Q(x), P(link), Q(y), P(";\n")]) == Words([verb]) + NamesWords(x, word, y)
  {
    hide Lex, Tokens, AllWord, NamesWords;
    NothingIs();
    WordIs(verb, " ", []);
    assert [Word(verb)] + [] == Words([verb]);
    TwoNamesTokens(text, Words([verb]), x, link, word, y);
  }

  lemma PrivilegeTokens(
      verb: string, text: string, ps: seq<string>, on: string, where_: seq<Token>, x: string, link: string, word: string, y: string)
    requires verb != "" && AllWord(verb) && text == verb + " " && PrivilegeList(ps) && Ends(on)
    requires Lex(on) == Some(where_) && Lex(link) == Some([Word(word)])
    ensures Tokens([P(text + JoinComma(ps) + on), Q(x), P(link), Q(y), P(";\n")])
            == Words([verb]) + (ListWords(ps) + (where_ + NamesWords(x, word, y)))
  {
    hide Lex, Tokens, AllWord, NamesWords, JoinComma, ListWords, PrivilegeList;
    VerbIs(verb, ps, on, where_);
    TwoNamesTokens(text + JoinComma(ps) + on, [Word(verb)] + (ListWords(ps) + where_), x, link, word, y);
    assert [Word(verb)] + (ListWords(ps) + where_) + NamesWords(x, word, y)
        == Words([verb]) + (ListWords(ps) + (where_ + NamesWords(x, word, y)));
  }

  lemma AlterTokens(role: string, a: Attributes)
    ensures Tokens(Pieces(AlterRole(role, a))) == Spoken(AlterRole(role, a))
  {
    hide Lex, Tokens, Options, OptionWords, Words;
    AlterIs();
    if a.password.Some? {
      OptionsAre(a);
      TokensFive(P("ALTER ROLE "), Q(role), P(" LOGIN PASSWORD "), L(a.password.value), P(Options(a)));
      LoginRegroup(Words(["LOGIN", "PASSWORD"]), [Literal(a.password.value)], OptionWords(a));
    } else {
      NoLoginIs(a);
      TokensThree(P("ALTER ROLE "), Q(role), P(" NOLOGIN" + Options(a)));
    }
  }

  lemma LoginRegroup<T>(a: seq<T>, b: seq<T>, c: seq<T>)
    ensures a + (b + c) == a + b + c
  {}

  lemma DoTokens(role: string)
    ensures Tokens(Pieces(EnsureRole(role))) == Spoken(EnsureRole(role))
  {
    hide Lex, Tokens, EnsureBody;
    LinksAre();
    EndIs();
    TokensThree(P("DO "), D("", EnsureBody(role)), P(";\n"));
    assert Words(["DO"]) == [Word("DO")];
  }

  lemma DropTokens(role: string)
    ensures Tokens(Pieces(DropRole(role))) == Spoken(DropRole(role))
  {
    hide Lex, Tokens, Words;
    DropIs();
    EndIs();
    TokensThree(P("DROP ROLE IF EXISTS "), Q(role), P(";\n"));
  }

  lemma Verbs()
    ensures AllWord("GRANT") && AllWord("REVOKE") && "GRANT" + " " == "GRANT " && "REVOKE" + " " == "REVOKE "
    ensures Ends(" ON SCHEMA ") && Ends(" ON ALL TABLES IN SCHEMA ")
  {}

  /** The tokens of a statement's text. */
  lemma TokensSpoken(s: Statement)
    requires Speakable(s)
    ensures Tokens(Pieces(s)) == Spoken(s)
  {
    Verbs();
    hide Lex, Tokens, AllWord, Ends, Words, NamesWords, JoinComma, ListWords, PrivilegeList, Contains, EnsureBody, Options;
    LinksAre();
    OnSchemaIs();
    OnTablesIs();
    match s
    case EnsureRole(role) => DoTokens(role);
    case AlterRole(role, a) => AlterTokens(role, a);
    case GrantRole(member, role) => MembershipTokens("GRANT", "GRANT ", member, " TO ", "TO", role);
    case GrantSchema(ps, schema, role) =>
      PrivilegeTokens("GRANT", "GRANT ", ps, " ON SCHEMA ", Words(ON_SCHEMA), schema, " TO ", "TO", role);
    case GrantTables(ps, schema, role) =>
      PrivilegeTokens("GRANT", "GRANT ", ps, " ON ALL TABLES IN SCHEMA ", Words(ON_TABLES), schema, " TO ", "TO", role);
    case RevokeTables(ps, schema, role) =>
      PrivilegeTokens("REVOKE", "REVOKE ", ps, " ON ALL TABLES IN SCHEMA ", Words(ON_TABLES), schema, " FROM ", "FROM", role);
    case RevokeSchema(ps, schema, role) =>
      PrivilegeTokens("REVOKE", "REVOKE ", ps, " ON SCHEMA ", Words(ON_SCHEMA), schema, " FROM ", "FROM", role);
    case RevokeRole(member, role) => MembershipTokens("REVOKE", "REVOKE ", member, " FROM ", "FROM", role);
    case DropRole(role) => DropTokens(role);
  }

  // The guard

  lemma BeginText()
    ensures " " + "BEGIN" + "\n" == " BEGIN\n" && Ends("\n")
  {}

  lemma BeginIs()
    ensures Lex(" BEGIN\n") == Some([Word("BEGIN")])
  {
    MoreWords();
    BeginText();
    hide Lex, AllWord, Ends;
    NothingIs();
    SpacedIs("BEGIN", "\n", []);
    assert [Word("BEGIN")] + [] == [Word("BEGIN")];
  }

  lemma SelectText()
    ensures [' '] + (['('] + ("SELECT" + (" " + "1" + " "))) == " (SELECT 1 "
  {}

  lemma SelectIs()
    ensures Lex(" (SELECT 1 ") == Some([Symbol('('), Word("SELECT"), Word("1")])
  {
    MoreWords();
    SelectText();
    hide Lex, AllWord, Led;
    LedOne("1");
    StartIsWords("SELECT", ["1"]);
    var select := "SELECT" + (" " + "1" + " ");
    SymbolIs('(', select, Words(["SELECT"] + ["1"]));
    BlankIs(' ', ['('] + select);
    assert [Symbol('(')] + Words(["SELECT"] + ["1"]) == [Symbol('('), Word("SELECT"), Word("1")];
  }

  lemma IfText()
    ensures "IF" + (" " + "NOT" + (" " + "EXISTS") + " (SELECT 1 ") == "IF NOT EXISTS (SELECT 1 " && Ends(" (SELECT 1 ")
  {}

  lemma IfNotExistsIs()
    ensures Lex("IF NOT EXISTS (SELECT 1 ")
            == Some([Word("IF"), Word("NOT"), Word("EXISTS"), Symbol('('), Word("SELECT"), Word("1")])
  {
    MoreWords();
    IfText();
    hide Lex, AllWord, Led, Ends;
    SelectIs();
    var ts, rest := [Symbol('('), Word("SELECT"), Word("1")], " (SELECT 1 ";
    LedTwo("NOT", "EXISTS");
    LedIs(["NOT", "EXISTS"], rest, ts);
    LedEnds(["NOT", "EXISTS"], rest);
    WordIs("IF", Led(["NOT", "EXISTS"]) + rest, Words(["NOT", "EXISTS"]) + ts);
    assert [Word("IF")] + (Words(["NOT", "EXISTS"]) + ts)
        == [Word("IF"), Word("NOT"), Word("EXISTS"), Symbol('('), Word("SELECT"), Word("1")];
  }

  lemma FromText()
    ensures "FROM" + (" " + "pg_roles" + (" " + "WHERE" + (" " + "rolname")) + " = ") == "FROM pg_roles WHERE rolname = "
    ensures [' '] + (['='] + " ") == " = " && Ends(" = ")
  {}

  lemma FromRolesIs()
    ensures Lex("FROM pg_roles WHERE rolname = ")
            == Some([Word("FROM"), Word("pg_roles"), Word("WHERE"), Word("rolname"), Symbol('=')])
  {
    CommonWords();
    MoreWords();
    FromText();
    hide Lex, AllWord, Led, Ends;
    NothingIs();
    SymbolIs('=', " ", []);
    BlankIs(' ', ['='] + " ");
    var words, ts := ["pg_roles", "WHERE", "rolname"], [Symbol('=')] + [];
    LedThree("pg_roles", "WHERE", "rolname");
    LedIs(words, " = ", ts);
    LedEnds(words, " = ");
    WordIs("FROM", Led(words) + " = ", Words(words) + ts);
    assert [Word("FROM")] + (Words(words) + ts)
        == [Word("FROM"), Word("pg_roles"), Word("WHERE"), Word("rolname"), Symbol('=')];
  }

  /** Fixed texts side by side, the first ending in white space. */
  lemma TextsAre(a: string, ts: seq<Token>, b: string, us: seq<Token>)
    requires Plain(a) && a != "" && Blank(a[|a| - 1]) && Lex(a) == Some(ts) && Lex(b) == Some(us)
    ensures Lex(a + b) == Some(ts + us)
  {
    hide Lex;
    LexPlain(a, b);
  }

  lemma StartIs()
    ensures Lex(EXISTS_START) == Some(Words(["BEGIN", "IF", "NOT", "EXISTS"]) + [Symbol('(')]
                                      + Words(["SELECT", "1", "FROM", "pg_roles", "WHERE", "rolname"]) + [Symbol('=')])
  {
    ExistsPartsPlain();
    hide Lex, Plain;
    BeginIs();
    IfNotExistsIs();
    FromRolesIs();
    var begin, ifs, from := " BEGIN\n", "IF NOT EXISTS (SELECT 1 ", "FROM pg_roles WHERE rolname = ";
    var a := [Word("BEGIN")];
    var b := [Word("IF"), Word("NOT"), Word("EXISTS"), Symbol('('), Word("SELECT"), Word("1")];
    var c := [Word("FROM"), Word("pg_roles"), Word("WHERE"), Word("rolname"), Symbol('=')];
    assert begin[|begin| - 1] == '\n' && ifs[|ifs| - 1] == ' ';
    TextsAre(ifs, b, from, c);
    TextsAre(begin, a, ifs + from, b + c);
    assert a + (b + c) == Words(["BEGIN", "IF", "NOT", "EXISTS"]) + [Symbol('(')]
                          + Words(["SELECT", "1", "FROM", "pg_roles", "WHERE", "rolname"]) + [Symbol('=')];
  }

  lemma ThenText()
    ensures [')'] + (" " + "THEN" + (['\n'] + ("CREATE" + (" " + "ROLE" + " ")))) == ") THEN\nCREATE ROLE "
    ensures AllWord("THEN") && AllWord("CREATE") && Ends(['\n'] + ("CREATE" + (" " + "ROLE" + " ")))
  {}

  lemma MiddleIs()
    ensures Lex(EXISTS_MIDDLE) == Some([Symbol(')')] + Words(["THEN", "CREATE", "ROLE"]))
  {
    CommonWords();
    ThenText();
    hide Lex, AllWord, Led, Ends;
    LedOne("ROLE");
    StartIsWords("CREATE", ["ROLE"]);
    var create, ts := "CREATE" + (" " + "ROLE" + " "), Words(["CREATE"] + ["ROLE"]);
    BlankIs('\n', create);
    SpacedIs("THEN", ['\n'] + create, ts);
    SymbolIs(')', " " + "THEN" + (['\n'] + create), [Word("THEN")] + ts);
    assert [Symbol(')')] + ([Word("THEN")] + ts) == [Symbol(')')] + Words(["THEN", "CREATE", "ROLE"]);
  }

  lemma EndingIs()
    ensures Lex(EXISTS_END) == Some([END] + Words(["END", "IF"]) + [END] + Words(["END"]))
  {
    hide Lex;
    NothingIs();
    WordIs("END", " ", []);
    BlankIs('\n', "END" + " ");
    SymbolIs(';', ['\n'] + ("END" + " "), [Word("END")] + []);
    var last := [';'] + (['\n'] + ("END" + " "));
    assert last == ";\nEND ";
    SpacedIs("IF", last, [END] + ([Word("END")] + []));
    var ifs := " " + "IF" + last;
    assert ifs == " IF;\nEND ";
    WordIs("END", ifs, [Word("IF")] + ([END] + ([Word("END")] + [])));
    BlankIs('\n', "END" + ifs);
    SymbolIs(';', ['\n'] + ("END" + ifs), [Word("END")] + ([Word("IF")] + ([END] + ([Word("END")] + []))));
    assert [';'] + (['\n'] + ("END" + ifs)) == ";\nEND IF;\nEND ";
    assert [END] + ([Word("END")] + ([Word("IF")] + ([END] + ([Word("END")] + []))))
        == [END] + Words(["END", "IF"]) + [END] + Words(["END"]);
  }

  lemma GuardRegroup(start: seq<Token>, l: seq<Token>, middle: seq<Token>, i: seq<Token>, end: seq<Token>, role: string)
    requires start == Words(["BEGIN", "IF", "NOT", "EXISTS"]) + [Symbol('(')]
                      + Words(["SELECT", "1", "FROM", "pg_roles", "WHERE", "rolname"]) + [Symbol('=')]
    requires l == [Literal(role)] && middle == [Symbol(')')] + Words(["THEN", "CREATE", "ROLE"]) && i == [Ident(role)]
    requires end == [END] + Words(["END", "IF"]) + [END] + Words(["END"])
    ensures start + (l + (middle + (i + end))) == Guard(role)
  {}

  lemma GuardIs(role: string)
    ensures Lex(EnsureBody(role)) == Some(Guard(role))
  {
    StartIs();
    MiddleIs();
    EndingIs();
    EnsureBodyLexes(role);
    hide *;
    TokensFive(P(EXISTS_START), L(role), P(EXISTS_MIDDLE), Q(role), P(EXISTS_END));
    QuotedTokens(role);
    FixedToken(EXISTS_START, Lex(EXISTS_START).value);
    FixedToken(EXISTS_MIDDLE, Lex(EXISTS_MIDDLE).value);
    FixedToken(EXISTS_END, Lex(EXISTS_END).value);
    GuardRegroup(Lex(EXISTS_START).value, TokensOf(L(role)), Lex(EXISTS_MIDDLE).value, TokensOf(Q(role)), Lex(EXISTS_END).value, role);
  }

  lemma QuotedTokens(role: string)
    ensures TokensOf(L(role)) == [Literal(role)] && TokensOf(Q(role)) == [Ident(role)]
  {}

  lemma GuardName(role: string)
    ensures |Guard(role)| > GUARD_NAME && Guard(role)[GUARD_NAME] == Literal(role)
  {}

  /** The guard is read as creating the role of the name. */
  lemma GuardBack(role: string)
    ensures ReadGuard(EnsureBody(role)) == Some(role)
  {
    hide Lex, Guard, EnsureBody;
    GuardIs(role);
    GuardName(role);
  }

  // Scripts

  ghost predicate AllSpeakable(statements: seq<Statement>) {
    forall s :: s in statements ==> Speakable(s) && Printable(s)
  }

  lemma SpokenNotEmpty(s: Statement)
    ensures Spoken(s) != []
  {}

  lemma ScriptStep(s: Statement, rest: seq<Statement>)
    requires Speakable(s)
    ensures Tokens(ScriptPieces([s] + rest)) == Spoken(s) + Tokens(ScriptPieces(rest))
  {
    TokensSpoken(s);
    OnePiece(s);
    hide *;
    PiecesConcat([s], rest);
    RenderConcat(Pieces(s), ScriptPieces(rest));
  }

  lemma OnePiece(s: Statement)
    ensures ScriptPieces([s]) == Pieces(s)
  {
    assert [s][..0] == [] && [] + Pieces(s) == Pieces(s);
  }

  lemma NoStatements()
    ensures Tokens(ScriptPieces([])) == [] && ReadScript([]) == Some([])
  {}

  lemma ReadScriptStep(ts: seq<Token>, s: Statement, rest: seq<Token>, more: seq<Statement>)
    requires ReadStatement(ts) == Some((s, rest)) && |rest| < |ts| && ReadScript(rest) == Some(more)
    ensures ReadScript(ts) == Some([s] + more)
  {
    hide ReadStatement;
  }

  lemma FirstSpeakable(statements: seq<Statement>)
    requires AllSpeakable(statements) && statements != []
    ensures statements == [statements[0]] + statements[1..]
    ensures Speakable(statements[0]) && AllSpeakable(statements[1..])
  {
    assert statements[0] in statements && forall s :: s in statements[1..] ==> s in statements;
    hide Speakable, Printable;
  }

  lemma {:induction false} ScriptReadBack(statements: seq<Statement>)
    requires AllSpeakable(statements)
    ensures ReadScript(Tokens(ScriptPieces(statements))) == Some(statements)
    decreases |statements|
  {
    hide *;
    if statements == [] {
      NoStatements();
      return;
    }
    var s, rest := statements[0], statements[1..];
    FirstSpeakable(statements);
    ScriptReadBack(rest);
    ScriptStep(s, rest);
    var later := Tokens(ScriptPieces(rest));
    if s.EnsureRole? { GuardBack(s.role); }
    ReadBack(s, later);
    SpokenNotEmpty(s);
    ReadScriptStep(Spoken(s) + later, s, later, rest);
  }

  lemma PrintableAll(statements: seq<Statement>)
    requires AllSpeakable(statements)
    ensures forall s :: s in statements ==> Printable(s)
  {
    hide Speakable, Printable;
  }

  /** A script, lexed and read, is the statements it was made from: the verbs and their direction,
      the names, the privileges and the attributes. */
  lemma ScriptMeans(statements: seq<Statement>)
    requires AllSpeakable(statements)
    ensures Lex(Script(statements)).Some? && ReadScript(Lex(Script(statements)).value) == Some(statements)
  {
    hide *;
    PrintableAll(statements);
    ScriptLexes(statements);
    ScriptReadBack(statements);
  }

  lemma KeywordsArePrivileges()
    ensures Privilege("USAGE") && Privilege("CREATE") && Privilege("SELECT") && Privilege("INSERT") && Privilege("UPDATE")
    ensures Privilege("DELETE") && Privilege("ALL PRIVILEGES")
  {
    assert "ALL"[0] == 'A' && "USAGE"[0] == 'U' && "CREATE"[0] == 'C' && "SELECT"[0] == 'S' && "INSERT"[0] == 'I' && "DELETE"[0] == 'D';
  }

  ghost predicate AllPrivileges(ps: Privileges) {
    (forall p :: p in ps.schema ==> Privilege(p)) && (forall p :: p in ps.table ==> Privilege(p))
  }

  lemma NamedArePrivileges(parts: seq<string>, ps: Privileges)
    requires NamedBy(parts, ps)
    ensures AllPrivileges(ps)
  {
    KeywordsArePrivileges();
    hide Privilege, Among;
  }

  lemma GrantsAre(grants: string)
    ensures GrantPrivileges(grants) == AddGrants(Privileges([], []), Text.Split(grants, ','))
  {}

  lemma PrivilegesSpeakable(r: Role, schema: string)
    requires schema in r.schemaGrants
    ensures AllPrivileges(GrantPrivileges(r.schemaGrants[schema]))
  {
    hide *;
    var parts := Text.Split(r.schemaGrants[schema], ',');
    GrantsAre(r.schemaGrants[schema]);
    PrivilegesNamed(parts);
    NamedArePrivileges(parts, AddGrants(Privileges([], []), parts));
  }

  lemma OneSchemaSpeakable(r: Role, schema: string)
    requires schema in r.schemaGrants
    ensures forall s :: s in SchemaGrantStatements(r, schema) || s in SchemaRevokeStatements(r, schema) ==> Speakable(s)
  {
    PrivilegesSpeakable(r, schema);
    hide Privilege, GrantPrivileges;
  }

  lemma {:induction false} SchemasSpeakable(r: Role, order: seq<string>)
    requires forall s :: s in order ==> s in r.schemaGrants
    ensures forall s :: s in GrantSchemas(r, order) ==> Speakable(s)
    ensures forall s :: s in RevokeSchemas(r, order) ==> Speakable(s)
  {
    if order == [] { return; }
    hide Speakable, SchemaGrantStatements, SchemaRevokeStatements;
    SchemasSpeakable(r, order[..|order| - 1]);
    OneSchemaSpeakable(r, order[|order| - 1]);
  }

  lemma MembersSpeakable(r: Role)
    ensures forall s :: s in GrantMembers(r, r.memberOf) || s in RevokeMembers(r, r.memberOf) ==> Speakable(s)
  {}

  lemma RoleSpeakable(r: Role, password: string, order: seq<string>)
    requires Enumerates(order, r) && !Contains(r.name, Delimiter(""))
    ensures AllSpeakable(CreateStatements(r, password, order)) && AllSpeakable(DeleteStatements(r, order))
  {
    StatementsPrintable(r, password, order);
    SchemasSpeakable(r, order);
    MembersSpeakable(r);
    EnsurePrintable(r.name);
    var alter := AlterRole(r.name, AttributesOf(r, password));
    assert Speakable(EnsureRole(r.name)) && Speakable(alter) && Speakable(DropRole(r.name));
    hide Contains, GrantMembers, RevokeMembers, GrantSchemas, RevokeSchemas, Printable, Speakable, Enumerates;
    forall s | s in CreateStatements(r, password, order) ensures Speakable(s) && Printable(s) {
      assert s == EnsureRole(r.name) || s in AfterEnsure(r, password, order);
      assert s in AfterEnsure(r, password, order) ==>
        s == alter || s in GrantMembers(r, r.memberOf) || s in GrantSchemas(r, order);
    }
    forall s | s in DeleteStatements(r, order) ensures Speakable(s) {
      assert s in RevokeSchemas(r, order) || s in RevokeMembers(r, r.memberOf) || s == DropRole(r.name);
    }
  }

  lemma EnsurePrintable(role: string)
    requires !Contains(role, Delimiter(""))
    ensures Printable(EnsureRole(role))
  {}

  /** Both scripts of a role say what its declaration calls for, in the order of the grants. */
  lemma RoleScriptsMean(r: Role, password: string, order: seq<string>)
    requires Enumerates(order, r) && !Contains(r.name, Delimiter(""))
    ensures (forall s :: s in order ==> s in r.schemaGrants) && Lex(Script(CreateStatements(r, password, order))).Some?
    ensures ReadScript(Lex(Script(CreateStatements(r, password, order))).value) == Some(CreateStatements(r, password, order))
    ensures Lex(Script(DeleteStatements(r, order))).Some?
    ensures ReadScript(Lex(Script(DeleteStatements(r, order))).value) == Some(DeleteStatements(r, order))
  {
    EnumeratedKeys(order, r);
    hide *;
    RoleSpeakable(r, password, order);
    ScriptMeans(CreateStatements(r, password, order));
    ScriptMeans(DeleteStatements(r, order));
  }
}
