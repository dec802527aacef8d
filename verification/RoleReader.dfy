/** What the role scripts say (internal/api/project_database_role_handlers.go): a reader of the SQL
    statements for roles, from tokens to statements, written after the syntax of CREATE ROLE, ALTER
    ROLE, GRANT, REVOKE and DROP ROLE. The scripts are read as the statements they were made from. */
module RoleReader {
  import opened DatabaseRoles
  import opened RoleSql
  import opened SqlText
  import opened SqlWords
  import opened Wrappers

  // The reader

  /** The guard: create the role unless there is one of the name. */
  function Guard(role: string): seq<Token> {
    Words(["BEGIN", "IF", "NOT", "EXISTS"]) + [Symbol('(')] + Words(["SELECT", "1", "FROM", "pg_roles", "WHERE", "rolname"])
    + [Symbol('='), Literal(role), Symbol(')')] + Words(["THEN", "CREATE", "ROLE"]) + [Ident(role), END]
    + Words(["END", "IF"]) + [END] + Words(["END"])
  }

  const GUARD_NAME: nat := 12

  function ReadGuard(body: string): Option<string> {
    var ts := Lex(body);
    if ts.Some? && |ts.value| > GUARD_NAME && ts.value[GUARD_NAME].Literal? && ts.value == Guard(ts.value[GUARD_NAME].value)
    then Some(ts.value[GUARD_NAME].value) else None
  }

  /** One of two keywords. */
  function ReadFlag(ts: seq<Token>, yes: string, no: string): Option<(bool, seq<Token>)> {
    if Starts(ts, [yes]) then Some((true, ts[1..]))
    else if Starts(ts, [no]) then Some((false, ts[1..]))
    else None
  }

  function ReadLogin(ts: seq<Token>): Option<(Option<string>, seq<Token>)> {
    if Starts(ts, ["LOGIN", "PASSWORD"]) && |ts| > 2 && ts[2].Literal? then Some((Some(ts[2].value), ts[3..]))
    else if Starts(ts, ["NOLOGIN"]) then Some((None, ts[1..]))
    else None
  }

  predicate Digit(c: char) { '0' <= c <= '9' }

  predicate AllDigits(s: string) { forall c :: c in s ==> Digit(c) }

  function Value(digits: string): nat
    requires AllDigits(digits)
  {
    if digits == "" then 0
    else
      assert digits[|digits| - 1] in digits && Digit(digits[|digits| - 1]);
      10 * Value(digits[..|digits| - 1]) + (digits[|digits| - 1] as int - '0' as int)
  }

  function ReadNumber(ts: seq<Token>): Option<(int, seq<Token>)> {
    if |ts| >= 2 && ts[0] == Symbol('-') && ts[1].Word? && AllDigits(ts[1].text)
    then Some((0 - Value(ts[1].text), ts[2..]))
    else if |ts| >= 1 && ts[0].Word? && AllDigits(ts[0].text)
    then Some((Value(ts[0].text), ts[1..]))
    else None
  }

  function ReadLimit(ts: seq<Token>): Option<(Option<int>, seq<Token>)> {
    if Starts(ts, ["CONNECTION", "LIMIT"]) then
      match ReadNumber(ts[2..])
      case None => None
      case Some((n, rest)) => Some((Some(n), rest))
    else Some((None, ts))
  }

  /** What follows ALTER ROLE and the name. */
  function ReadAttributes(ts: seq<Token>): Option<(Attributes, seq<Token>)> {
    match ReadLogin(ts)
    case None => None
    case Some((password, rest)) =>
      match ReadFlag(rest, "INHERIT", "NOINHERIT")
      case None => None
      case Some((inherit, rest')) =>
        match ReadFlag(rest', "BYPASSRLS", "NOBYPASSRLS")
        case None => None
        case Some((bypass, rest'')) =>
          match ReadLimit(rest'')
          case None => None
          case Some((limit, last)) => Some((Attributes(password, inherit, bypass, limit), last))
  }

  function ReadPrivilege(ts: seq<Token>): Option<(string, seq<Token>)> {
    if Starts(ts, ["ALL", "PRIVILEGES"]) then Some(("ALL PRIVILEGES", ts[2..]))
    else if ts != [] && ts[0].Word? then Some((ts[0].text, ts[1..]))
    else None
  }

  function ReadPrivileges(ts: seq<Token>): Option<(seq<string>, seq<Token>)>
    decreases |ts|
  {
    match ReadPrivilege(ts)
    case None => None
    case Some((p, rest)) =>
      if rest == [] || rest[0] != Symbol(',') then Some(([p], rest))
      else match ReadPrivileges(rest[1..])
        case None => None
        case Some((ps, last)) => Some(([p] + ps, last))
  }

  /** What a GRANT or REVOKE is about. */
  datatype Subject =
    | Membership(member: string, role: string)
    | SchemaPrivileges(privileges: seq<string>, schema: string, role: string)
    | TablePrivileges(privileges: seq<string>, schema: string, role: string)

  /** A name, the link, a name, and the end. */
  function ReadNames(ts: seq<Token>, link: string): Option<((string, string), seq<Token>)> {
    if |ts| >= 4 && ts[0].Ident? && ts[1] == Word(link) && ts[2].Ident? && ts[3] == END
    then Some(((ts[0].name, ts[2].name), ts[4..])) else None
  }

  function ReadSubject(ts: seq<Token>, link: string): Option<(Subject, seq<Token>)> {
    if ts != [] && ts[0].Ident? then
      match ReadNames(ts, link)
      case None => None
      case Some((names, rest)) => Some((Membership(names.0, names.1), rest))
    else
      match ReadPrivileges(ts)
      case None => None
      case Some((ps, rest)) =>
        if Starts(rest, ["ON", "SCHEMA"]) then
          match ReadNames(rest[2..], link)
          case None => None
          case Some((names, last)) => Some((SchemaPrivileges(ps, names.0, names.1), last))
        else if Starts(rest, ["ON", "ALL", "TABLES", "IN", "SCHEMA"]) then
          match ReadNames(rest[5..], link)
          case None => None
          case Some((names, last)) => Some((TablePrivileges(ps, names.0, names.1), last))
        else None
  }

  function Granted(s: Subject): Statement {
    match s
    case Membership(member, role) => GrantRole(member, role)
    case SchemaPrivileges(ps, schema, role) => GrantSchema(ps, schema, role)
    case TablePrivileges(ps, schema, role) => GrantTables(ps, schema, role)
  }

  function Revoked(s: Subject): Statement {
    match s
    case Membership(member, role) => RevokeRole(member, role)
    case SchemaPrivileges(ps, schema, role) => RevokeSchema(ps, schema, role)
    case TablePrivileges(ps, schema, role) => RevokeTables(ps, schema, role)
  }

  function ReadStatement(ts: seq<Token>): Option<(Statement, seq<Token>)> {
    if Starts(ts, ["DO"]) then
      if |ts| >= 3 && ts[1].Dollar? && ts[2] == END && ReadGuard(ts[1].body).Some?
      then Some((EnsureRole(ReadGuard(ts[1].body).value), ts[3..])) else None
    else if Starts(ts, ["ALTER", "ROLE"]) then
      if |ts| < 3 || !ts[2].Ident? then None
      else match ReadAttributes(ts[3..])
        case None => None
        case Some((a, rest)) => if rest != [] && rest[0] == END then Some((AlterRole(ts[2].name, a), rest[1..])) else None
    else if Starts(ts, ["GRANT"]) then
      match ReadSubject(ts[1..], "TO")
      case None => None
      case Some((s, rest)) => Some((Granted(s), rest))
    else if Starts(ts, ["REVOKE"]) then
      match ReadSubject(ts[1..], "FROM")
      case None => None
      case Some((s, rest)) => Some((Revoked(s), rest))
    else if Starts(ts, ["DROP", "ROLE", "IF", "EXISTS"]) && |ts| >= 6 && ts[4].Ident? && ts[5] == END
    then Some((DropRole(ts[4].name), ts[6..]))
    else None
  }

  function ReadScript(ts: seq<Token>): Option<seq<Statement>>
    decreases |ts|
  {
    if ts == [] then Some([])
    else match ReadStatement(ts)
      case None => None
      case Some((s, rest)) =>
        if |rest| >= |ts| then None
        else match ReadScript(rest)
          case None => None
          case Some(more) => Some([s] + more)
  }

  // What the texts say

  function LoginWords(password: Option<string>): seq<Token> {
    if password.Some? then Words(["LOGIN", "PASSWORD"]) + [Literal(password.value)] else Words(["NOLOGIN"])
  }

  function NumberWords(n: int): seq<Token> {
    if n < 0 then [Symbol('-'), Word(Digits(-n))] else [Word(Digits(n))]
  }

  function LimitWords(limit: Option<int>): seq<Token> {
    if limit.Some? then Words(["CONNECTION", "LIMIT"]) + NumberWords(limit.value) else []
  }

  function OptionWords(a: Attributes): seq<Token> {
    [Word(if a.inherit then "INHERIT" else "NOINHERIT")] + ([Word(if a.bypassRLS then "BYPASSRLS" else "NOBYPASSRLS")]
    + (LimitWords(a.connectionLimit) + [END]))
  }

  function PrivilegeWords(p: string): seq<Token> {
    if p == "ALL PRIVILEGES" then Words(["ALL", "PRIVILEGES"]) else [Word(p)]
  }

  function ListWords(ps: seq<string>): seq<Token> {
    if ps == [] then []
    else if |ps| == 1 then PrivilegeWords(ps[0])
    else PrivilegeWords(ps[0]) + ([Symbol(',')] + ListWords(ps[1..]))
  }

  function NamesWords(first: string, link: string, second: string): seq<Token> {
    [Ident(first), Word(link), Ident(second), END]
  }

  const ON_SCHEMA := ["ON", "SCHEMA"]
  const ON_TABLES := ["ON", "ALL", "TABLES", "IN", "SCHEMA"]

  function Spoken(s: Statement): seq<Token> {
    match s
    case EnsureRole(role) => Words(["DO"]) + [Dollar(EnsureBody(role)), END]
    case AlterRole(role, a) => Words(["ALTER", "ROLE"]) + ([Ident(role)] + (LoginWords(a.password) + OptionWords(a)))
    case GrantRole(member, role) => Words(["GRANT"]) + NamesWords(member, "TO", role)
    case GrantSchema(ps, schema, role) => Words(["GRANT"]) + (ListWords(ps) + (Words(ON_SCHEMA) + NamesWords(schema, "TO", role)))
    case GrantTables(ps, schema, role) => Words(["GRANT"]) + (ListWords(ps) + (Words(ON_TABLES) + NamesWords(schema, "TO", role)))
    case RevokeTables(ps, schema, role) => Words(["REVOKE"]) + (ListWords(ps) + (Words(ON_TABLES) + NamesWords(schema, "FROM", role)))
    case RevokeSchema(ps, schema, role) => Words(["REVOKE"]) + (ListWords(ps) + (Words(ON_SCHEMA) + NamesWords(schema, "FROM", role)))
    case RevokeRole(member, role) => Words(["REVOKE"]) + NamesWords(member, "FROM", role)
    case DropRole(role) => Words(["DROP", "ROLE", "IF", "EXISTS"]) + [Ident(role), END]
  }

  /** A privilege is a word, or all of them. */
  predicate Privilege(p: string) {
    p == "ALL PRIVILEGES" || (p != "" && AllWord(p) && p != "ALL")
  }

  predicate PrivilegeList(ps: seq<string>) { ps != [] && forall p :: p in ps ==> Privilege(p) }

  ghost predicate Speakable(s: Statement) {
    match s
    case EnsureRole(role) => !Contains(role, Delimiter(""))
    case GrantSchema(ps, _, _) => PrivilegeList(ps)
    case GrantTables(ps, _, _) => PrivilegeList(ps)
    case RevokeTables(ps, _, _) => PrivilegeList(ps)
    case RevokeSchema(ps, _, _) => PrivilegeList(ps)
    case _ => true
  }

  // Reading what is said

  lemma ReadFlagBack(b: bool, yes: string, no: string, more: seq<Token>)
    requires yes != no
    ensures ReadFlag([Word(if b then yes else no)] + more, yes, no) == Some((b, more))
  {
    var ts := [Word(if b then yes else no)] + more;
    assert ts[1..] == more && ts[0] == Word(if b then yes else no);
    assert Words([yes]) == [Word(yes)] && Words([no]) == [Word(no)];
    if !b { assert Words([yes])[0] != ts[0]; }
  }

  lemma OneDigit(d: nat)
    requires d < 10
    ensures var c := (d + '0' as int) as char; Digit(c) && WordChar(c) && c as int - '0' as int == d
  {}

  lemma ValueStep(init: string, c: char)
    requires AllDigits(init) && AllWord(init) && Digit(c) && WordChar(c)
    ensures AllDigits(init + [c]) && AllWord(init + [c]) && Value(init + [c]) == 10 * Value(init) + (c as int - '0' as int)
  {
    var all := init + [c];
    assert all[..|all| - 1] == init && all[|all| - 1] == c;
  }

  lemma NoDigits()
    ensures AllDigits("") && AllWord("") && Value("") == 0
  {}

  lemma DigitsUnfold(n: nat)
    ensures Digits(n) == (if n < 10 then "" else Digits(n / 10)) + [(n % 10 + '0' as int) as char]
  {}

  lemma {:induction false} DigitsBack(n: nat)
    ensures AllDigits(Digits(n)) && Value(Digits(n)) == n && AllWord(Digits(n))
  {
    hide *;
    NoDigits();
    DigitsUnfold(n);
    if n >= 10 { DigitsBack(n / 10); }
    OneDigit(n % 10);
    ValueStep(if n < 10 then "" else Digits(n / 10), (n % 10 + '0' as int) as char);
  }

  lemma ReadNumberBack(n: int, more: seq<Token>)
    ensures ReadNumber(NumberWords(n) + more) == Some((n, more))
  {
    hide Digits, Value, AllDigits;
    if n < 0 {
      DigitsBack(-n);
      var ts := [Symbol('-'), Word(Digits(-n))] + more;
      assert NumberWords(n) + more == ts;
      assert ts[0] == Symbol('-') && ts[1] == Word(Digits(-n)) && ts[2..] == more;
    } else {
      DigitsBack(n);
      var ts := [Word(Digits(n))] + more;
      assert NumberWords(n) + more == ts;
      assert ts[0] == Word(Digits(n)) && ts[1..] == more;
    }
  }

  lemma ReadLimitBack(limit: Option<int>, more: seq<Token>)
    requires more != [] && more[0] == END
    ensures ReadLimit(LimitWords(limit) + more) == Some((limit, more))
  {
    hide ReadNumber, NumberWords;
    if limit.Some? {
      ReadNumberBack(limit.value, more);
      StartsWith(["CONNECTION", "LIMIT"], NumberWords(limit.value) + more);
      assert LimitWords(limit) + more == Words(["CONNECTION", "LIMIT"]) + (NumberWords(limit.value) + more);
    } else {
      assert LimitWords(limit) + more == more;
      assert Words(["CONNECTION", "LIMIT"])[0] != more[0];
    }
  }

  lemma ReadLoginBack(password: Option<string>, more: seq<Token>)
    ensures ReadLogin(LoginWords(password) + more) == Some((password, more))
  {
    var ts := LoginWords(password) + more;
    if password.Some? {
      assert ts == Words(["LOGIN", "PASSWORD"]) + ([Literal(password.value)] + more);
      StartsWith(["LOGIN", "PASSWORD"], [Literal(password.value)] + more);
      assert ts[2] == Literal(password.value) && ts[3..] == more;
    } else {
      StartsWith(["NOLOGIN"], more);
      assert ts[0] == Word("NOLOGIN") && Words(["LOGIN", "PASSWORD"])[0] == Word("LOGIN");
    }
  }

  lemma Associative<T>(a: seq<T>, b: seq<T>, c: seq<T>)
    ensures a + b + c == a + (b + c)
  {}

  lemma ReadAttributesBack(a: Attributes, more: seq<Token>)
    ensures ReadAttributes((LoginWords(a.password) + OptionWords(a)) + more) == Some((a, [END] + more))
  {
    hide ReadLogin, ReadFlag, ReadLimit, LoginWords, LimitWords;
    var inherit, bypass := [Word(if a.inherit then "INHERIT" else "NOINHERIT")], [Word(if a.bypassRLS then "BYPASSRLS" else "NOBYPASSRLS")];
    var last := [END] + more;
    assert last[0] == END;
    ReadLoginBack(a.password, inherit + (bypass + (LimitWords(a.connectionLimit) + last)));
    ReadFlagBack(a.inherit, "INHERIT", "NOINHERIT", bypass + (LimitWords(a.connectionLimit) + last));
    ReadFlagBack(a.bypassRLS, "BYPASSRLS", "NOBYPASSRLS", LimitWords(a.connectionLimit) + last);
    ReadLimitBack(a.connectionLimit, last);
    assert (LoginWords(a.password) + OptionWords(a)) + more
        == LoginWords(a.password) + (inherit + (bypass + (LimitWords(a.connectionLimit) + last)));
  }

  lemma ReadPrivilegeBack(p: string, more: seq<Token>)
    requires Privilege(p)
    ensures ReadPrivilege(PrivilegeWords(p) + more) == Some((p, more))
  {
    var ts := PrivilegeWords(p) + more;
    if p == "ALL PRIVILEGES" {
      StartsWith(["ALL", "PRIVILEGES"], more);
    } else {
      assert ts[0] == Word(p) && ts[1..] == more && Words(["ALL", "PRIVILEGES"])[0] == Word("ALL");
    }
  }

  lemma ListOfOne(ps: seq<string>)
    requires |ps| == 1
    ensures ps == [ps[0]] && ListWords(ps) == PrivilegeWords(ps[0])
  {
    hide PrivilegeWords;
  }

  lemma ListOfMore(ps: seq<string>)
    requires |ps| > 1
    ensures ps == [ps[0]] + ps[1..] && ListWords(ps) == PrivilegeWords(ps[0]) + ([Symbol(',')] + ListWords(ps[1..]))
  {
    hide PrivilegeWords;
  }

  lemma ListParts(ps: seq<string>)
    requires PrivilegeList(ps)
    ensures ps != [] && Privilege(ps[0]) && (|ps| > 1 ==> PrivilegeList(ps[1..]))
  {
    hide Privilege;
    assert ps[0] in ps && forall q :: q in ps[1..] ==> q in ps;
  }

  lemma ListUnfold(ps: seq<string>)
    requires PrivilegeList(ps)
    ensures ps != [] && Privilege(ps[0]) && (|ps| == 1 ==> ps == [ps[0]] && ListWords(ps) == PrivilegeWords(ps[0]))
    ensures |ps| > 1 ==> ps == [ps[0]] + ps[1..] && PrivilegeList(ps[1..])
                         && ListWords(ps) == PrivilegeWords(ps[0]) + ([Symbol(',')] + ListWords(ps[1..]))
  {
    hide *;
    ListParts(ps);
    if |ps| == 1 { ListOfOne(ps); } else { ListOfMore(ps); }
  }

  lemma ReadPrivilegesUnfold(ts: seq<Token>, p: string, rest: seq<Token>)
    requires ReadPrivilege(ts) == Some((p, rest))
    ensures rest == [] || rest[0] != Symbol(',') ==> ReadPrivileges(ts) == Some(([p], rest))
    ensures rest != [] && rest[0] == Symbol(',') && ReadPrivileges(rest[1..]).Some? ==>
              var (ps, last) := ReadPrivileges(rest[1..]).value; ReadPrivileges(ts) == Some(([p] + ps, last))
  {}

  lemma {:induction false} ReadPrivilegesBack(ps: seq<string>, more: seq<Token>)
    requires PrivilegeList(ps) && (more != [] ==> more[0] != Symbol(','))
    ensures ReadPrivileges(ListWords(ps) + more) == Some((ps, more))
    decreases |ps|
  {
    hide *;
    ListUnfold(ps);
    if |ps| == 1 {
      ReadPrivilegeBack(ps[0], more);
      ReadPrivilegesUnfold(ListWords(ps) + more, ps[0], more);
    } else {
      NotEmpty(ps);
      var later := [Symbol(',')] + ListWords(ps[1..]) + more;
      ReadPrivilegeBack(ps[0], later);
      ReadPrivilegesBack(ps[1..], more);
      assert ListWords(ps) + more == PrivilegeWords(ps[0]) + later;
      assert later[0] == Symbol(',') && later[1..] == ListWords(ps[1..]) + more;
      ReadPrivilegesUnfold(ListWords(ps) + more, ps[0], later);
    }
  }

  lemma NotEmpty(ps: seq<string>)
    requires PrivilegeList(ps)
    ensures ps != []
  {}

  lemma ReadNamesBack(first: string, link: string, second: string, more: seq<Token>)
    ensures ReadNames(NamesWords(first, link, second) + more, link) == Some(((first, second), more))
  {
    var ts := NamesWords(first, link, second) + more;
    assert ts[0] == Ident(first) && ts[1] == Word(link) && ts[2] == Ident(second) && ts[3] == END && ts[4..] == more;
  }

  lemma ReadMembershipBack(member: string, link: string, role: string, more: seq<Token>)
    ensures ReadSubject(NamesWords(member, link, role) + more, link) == Some((Membership(member, role), more))
  {
    hide ReadNames, ReadPrivileges;
    ReadNamesBack(member, link, role, more);
    assert (NamesWords(member, link, role) + more)[0] == Ident(member);
  }

  lemma ListStarts(ps: seq<string>, more: seq<Token>)
    requires PrivilegeList(ps)
    ensures ListWords(ps) != [] && (ListWords(ps) + more)[0].Word?
  {}

  lemma ReadOnSchemaBack(ps: seq<string>, schema: string, link: string, role: string, more: seq<Token>)
    requires PrivilegeList(ps)
    ensures ReadSubject(ListWords(ps) + (Words(ON_SCHEMA) + NamesWords(schema, link, role)) + more, link)
            == Some((SchemaPrivileges(ps, schema, role), more))
  {
    var names := NamesWords(schema, link, role) + more;
    var tail := Words(["ON", "SCHEMA"]) + names;
    var ts := ListWords(ps) + (Words(ON_SCHEMA) + NamesWords(schema, link, role)) + more;
    assert ts == ListWords(ps) + tail;
    assert tail[0] == Word("ON");
    hide ReadNames, ReadPrivileges, ListWords, NamesWords, Words, Starts;
    ListStarts(ps, tail);
    ReadPrivilegesBack(ps, tail);
    StartsWith(["ON", "SCHEMA"], names);
    ReadNamesBack(schema, link, role, more);
  }

  lemma ReadOnTablesBack(ps: seq<string>, schema: string, link: string, role: string, more: seq<Token>)
    requires PrivilegeList(ps)
    ensures ReadSubject(ListWords(ps) + (Words(ON_TABLES) + NamesWords(schema, link, role)) + more, link)
            == Some((TablePrivileges(ps, schema, role), more))
  {
    var names := NamesWords(schema, link, role) + more;
    var tail := Words(["ON", "ALL", "TABLES", "IN", "SCHEMA"]) + names;
    var ts := ListWords(ps) + (Words(ON_TABLES) + NamesWords(schema, link, role)) + more;
    assert ts == ListWords(ps) + tail;
    assert tail[0] == Word("ON") && tail[1] == Word("ALL") && Words(["ON", "SCHEMA"])[1] == Word("SCHEMA");
    assert !Starts(tail, ["ON", "SCHEMA"]);
    hide ReadNames, ReadPrivileges, ListWords, NamesWords, Words, Starts;
    ListStarts(ps, tail);
    ReadPrivilegesBack(ps, tail);
    StartsWith(["ON", "ALL", "TABLES", "IN", "SCHEMA"], names);
    ReadNamesBack(schema, link, role, more);
  }

  lemma ReadDoBack(role: string, more: seq<Token>)
    requires ReadGuard(EnsureBody(role)) == Some(role)
    ensures ReadStatement(Spoken(EnsureRole(role)) + more) == Some((EnsureRole(role), more))
  {
    var ts := Spoken(EnsureRole(role)) + more;
    hide ReadGuard, EnsureBody;
    assert ts[0] == Word("DO") && ts[1] == Dollar(EnsureBody(role)) && ts[2] == END && ts[3..] == more;
    assert Words(["DO"]) == [Word("DO")];
  }

  lemma FirstWords()
    ensures Words(["DO"]) == [Word("DO")] && Words(["GRANT"]) == [Word("GRANT")] && Words(["REVOKE"]) == [Word("REVOKE")]
    ensures Words(["ALTER", "ROLE"]) == [Word("ALTER"), Word("ROLE")]
    ensures Words(["DROP", "ROLE", "IF", "EXISTS"]) == [Word("DROP"), Word("ROLE"), Word("IF"), Word("EXISTS")]
    ensures "DO" != "ALTER" && "DO" != "GRANT" && "DO" != "REVOKE" && "DO" != "DROP" && "ALTER" != "GRANT"
    ensures "ALTER" != "REVOKE" && "ALTER" != "DROP" && "GRANT" != "REVOKE" && "GRANT" != "DROP" && "REVOKE" != "DROP"
  {
    assert "DO"[1] == 'O' && "DROP"[1] == 'R';
  }

  lemma ReadAlterUnfold(ts: seq<Token>, role: string, body: seq<Token>)
    requires ts == [Word("ALTER"), Word("ROLE"), Ident(role)] + body
    ensures ReadStatement(ts)
            == match ReadAttributes(body)
               case None => None
               case Some((a, rest)) => if rest != [] && rest[0] == END then Some((AlterRole(role, a), rest[1..])) else None
  {
    FirstWords();
    hide Words, ReadAttributes, ReadSubject;
    assert ts[0] == Word("ALTER") && ts[1] == Word("ROLE") && ts[2] == Ident(role) && ts[3..] == body;
  }

  lemma SpokenAlter(role: string, a: Attributes, more: seq<Token>)
    ensures Spoken(AlterRole(role, a)) + more
            == [Word("ALTER"), Word("ROLE"), Ident(role)] + ((LoginWords(a.password) + OptionWords(a)) + more)
  {
    FirstWords();
    hide Words, LoginWords, OptionWords;
  }

  lemma ReadAlterBack(role: string, a: Attributes, more: seq<Token>)
    ensures ReadStatement(Spoken(AlterRole(role, a)) + more) == Some((AlterRole(role, a), more))
  {
    hide *;
    SpokenAlter(role, a, more);
    ReadAlterUnfold(Spoken(AlterRole(role, a)) + more, role, (LoginWords(a.password) + OptionWords(a)) + more);
    ReadAttributesBack(a, more);
    EndFirst(more);
  }

  lemma EndFirst(more: seq<Token>)
    ensures ([END] + more) != [] && ([END] + more)[0] == END && ([END] + more)[1..] == more
  {}

  lemma ReadGrantBack(subject: Subject, words: seq<Token>, more: seq<Token>)
    requires ReadSubject(words + more, "TO") == Some((subject, more))
    ensures ReadStatement(Words(["GRANT"]) + words + more) == Some((Granted(subject), more))
  {
    FirstWords();
    hide Words, ReadAttributes, ReadSubject;
    var ts := Words(["GRANT"]) + words + more;
    assert ts[0] == Word("GRANT") && ts[1..] == words + more;
  }

  lemma ReadRevokeBack(subject: Subject, words: seq<Token>, more: seq<Token>)
    requires ReadSubject(words + more, "FROM") == Some((subject, more))
    ensures ReadStatement(Words(["REVOKE"]) + words + more) == Some((Revoked(subject), more))
  {
    FirstWords();
    hide Words, ReadAttributes, ReadSubject;
    var ts := Words(["REVOKE"]) + words + more;
    assert ts[0] == Word("REVOKE") && ts[1..] == words + more;
  }

  lemma ReadDropBack(role: string, more: seq<Token>)
    ensures ReadStatement(Spoken(DropRole(role)) + more) == Some((DropRole(role), more))
  {
    FirstWords();
    hide Words, ReadAttributes, ReadSubject;
    var ts := Spoken(DropRole(role)) + more;
    assert ts[0] == Word("DROP") && ts[1] == Word("ROLE") && ts[2] == Word("IF") && ts[3] == Word("EXISTS");
    assert ts[4] == Ident(role) && ts[5] == END && ts[6..] == more;
    assert ts[..4] == Words(["DROP", "ROLE", "IF", "EXISTS"]);
  }

  /** A statement's words are read as the statement, whatever follows them. */
  lemma ReadBack(s: Statement, more: seq<Token>)
    requires Speakable(s) && (s.EnsureRole? ==> ReadGuard(EnsureBody(s.role)) == Some(s.role))
    ensures ReadStatement(Spoken(s) + more) == Some((s, more))
  {
    hide ReadStatement, ReadSubject, Words, ListWords, NamesWords, PrivilegeList, Contains;
    match s
    case EnsureRole(role) => ReadDoBack(role, more);
    case AlterRole(role, a) => ReadAlterBack(role, a, more);
    case GrantRole(member, role) =>
      ReadMembershipBack(member, "TO", role, more);
      ReadGrantBack(Membership(member, role), NamesWords(member, "TO", role), more);
    case GrantSchema(ps, schema, role) =>
      ReadOnSchemaBack(ps, schema, "TO", role, more);
      ReadGrantBack(SchemaPrivileges(ps, schema, role), ListWords(ps) + (Words(ON_SCHEMA) + NamesWords(schema, "TO", role)), more);
    case GrantTables(ps, schema, role) =>
      ReadOnTablesBack(ps, schema, "TO", role, more);
      ReadGrantBack(TablePrivileges(ps, schema, role), ListWords(ps) + (Words(ON_TABLES) + NamesWords(schema, "TO", role)), more);
    case RevokeTables(ps, schema, role) =>
      ReadOnTablesBack(ps, schema, "FROM", role, more);
      ReadRevokeBack(TablePrivileges(ps, schema, role), ListWords(ps) + (Words(ON_TABLES) + NamesWords(schema, "FROM", role)), more);
    case RevokeSchema(ps, schema, role) =>
      ReadOnSchemaBack(ps, schema, "FROM", role, more);
      ReadRevokeBack(SchemaPrivileges(ps, schema, role), ListWords(ps) + (Words(ON_SCHEMA) + NamesWords(schema, "FROM", role)), more);
    case RevokeRole(member, role) =>
      ReadMembershipBack(member, "FROM", role, more);
      ReadRevokeBack(Membership(member, role), NamesWords(member, "FROM", role), more);
    case DropRole(role) => ReadDropBack(role, more);
  }
}
