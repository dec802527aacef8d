/** What a created role holds (internal/api/project_database_role_handlers.go:113-157): the catalog
    after a successful create script, field by field and grant by grant, in terms of the declaration
    alone. */
module RoleCreated {
  import opened DatabaseRoles
  import opened RoleMeaning
  import opened RoleReader
  import opened RoleSql
  import opened SqlText
  import opened Wrappers
  import Text

  /** The list gives the privilege on a schema. */
  predicate OnSchemaNamed(grants: string, privilege: string) {
    || (privilege == "USAGE" && (Names(grants, "usage") || Names(grants, "all")))
    || (privilege == "CREATE" && (Names(grants, "create") || Names(grants, "all")))
  }

  /** The list gives the privilege on the tables of a schema; the last three come with all only. */
  predicate OnTablesNamed(grants: string, privilege: string) {
    || (privilege == "SELECT" && (Names(grants, "select") || Names(grants, "all")))
    || (privilege == "INSERT" && (Names(grants, "insert") || Names(grants, "all")))
    || (privilege == "UPDATE" && (Names(grants, "update") || Names(grants, "all")))
    || (privilege == "DELETE" && (Names(grants, "delete") || Names(grants, "all")))
    || (privilege in {"TRUNCATE", "REFERENCES", "TRIGGER"} && Names(grants, "all"))
  }

  /** The catalog has grown by the memberships in `of` and by what the declaration gives on the
      schemas in `on` and on their tables, and by nothing else. */
  ghost predicate Grown(before: Db, after: Db, r: Role, on: set<string>, onTables: set<string>, of: set<string>) {
    && after.roles == before.roles && after.attributes == before.attributes
    && after.schemas == before.schemas && after.tables == before.tables
    && (forall m :: m in after.members <==> m in before.members || (m.1 == r.name && m.0 in of))
    && (forall g :: g in after.schemaGrants <==>
          || g in before.schemaGrants
          || (g.0 == r.name && g.1 in on && g.1 in r.schemaGrants && OnSchemaNamed(r.schemaGrants[g.1], g.2)))
    && (forall g :: g in after.tableGrants <==>
          || g in before.tableGrants
          || (g.0 == r.name && g.1 in onTables && g.1 in r.schemaGrants && (g.1, g.2) in before.tables
              && OnTablesNamed(r.schemaGrants[g.1], g.3)))
  }

  // One statement

  lemma GrantsNamed(grants: string)
    ensures NamedBy(Text.Split(grants, ','), GrantPrivileges(grants))
  {
    PrivilegesNamed(Text.Split(grants, ','));
  }

  /** The privileges of one schema statement, keywords expanded. */
  lemma SchemaPrivileges(grants: string, p: string)
    ensures p in Expand(GrantPrivileges(grants).schema, SCHEMA_PRIVILEGES) <==> OnSchemaNamed(grants, p)
  {
    GrantsNamed(grants);
    hide GrantPrivileges, Among;
    var ps := GrantPrivileges(grants).schema;
    assert "ALL PRIVILEGES" in ps <==> Names(grants, "all");
    assert "USAGE" in ps <==> Names(grants, "usage");
    assert "CREATE" in ps <==> Names(grants, "create");
  }

  lemma TablePrivileges(grants: string, p: string)
    ensures p in Expand(GrantPrivileges(grants).table, TABLE_PRIVILEGES) <==> OnTablesNamed(grants, p)
  {
    GrantsNamed(grants);
    hide GrantPrivileges, Among;
    var ps := GrantPrivileges(grants).table;
    assert "ALL PRIVILEGES" in ps <==> Names(grants, "all");
    assert "SELECT" in ps <==> Names(grants, "select");
    assert "INSERT" in ps <==> Names(grants, "insert");
    assert "UPDATE" in ps <==> Names(grants, "update");
    assert "DELETE" in ps <==> Names(grants, "delete");
    assert p in ps ==> p != "TRUNCATE" && p != "REFERENCES" && p != "TRIGGER";
  }

  lemma SchemaStatement(before: Db, db: Db, r: Role, schema: string, on: set<string>, onTables: set<string>, of: set<string>)
    requires schema in r.schemaGrants && Grown(before, db, r, on, onTables, of)
    ensures var ps := GrantPrivileges(r.schemaGrants[schema]).schema;
            if |ps| == 0 then Grown(before, db, r, on + {schema}, onTables, of)
            else var next := Exec(db, GrantSchema(ps, schema, r.name));
              next.Some? ==> Grown(before, next.value, r, on + {schema}, onTables, of)
  {
    forall p ensures p in Expand(GrantPrivileges(r.schemaGrants[schema]).schema, SCHEMA_PRIVILEGES)
                     <==> OnSchemaNamed(r.schemaGrants[schema], p)
    {
      SchemaPrivileges(r.schemaGrants[schema], p);
    }
    hide GrantPrivileges, OnSchemaNamed, OnTablesNamed;
  }

  lemma TableStatement(before: Db, db: Db, r: Role, schema: string, on: set<string>, onTables: set<string>, of: set<string>)
    requires schema in r.schemaGrants && Grown(before, db, r, on, onTables, of)
    ensures var ps := GrantPrivileges(r.schemaGrants[schema]).table;
            if |ps| == 0 then Grown(before, db, r, on, onTables + {schema}, of)
            else var next := Exec(db, GrantTables(ps, schema, r.name));
              next.Some? ==> Grown(before, next.value, r, on, onTables + {schema}, of)
  {
    forall p ensures p in Expand(GrantPrivileges(r.schemaGrants[schema]).table, TABLE_PRIVILEGES)
                     <==> OnTablesNamed(r.schemaGrants[schema], p)
    {
      TablePrivileges(r.schemaGrants[schema], p);
    }
    hide GrantPrivileges, OnSchemaNamed, OnTablesNamed;
  }

  lemma OneSchema(before: Db, db: Db, r: Role, schema: string, on: set<string>, of: set<string>)
    requires schema in r.schemaGrants && Grown(before, db, r, on, on, of)
    ensures var next := Run(db, SchemaGrantStatements(r, schema));
            next.Some? ==> Grown(before, next.value, r, on + {schema}, on + {schema}, of)
  {
    var ps := GrantPrivileges(r.schemaGrants[schema]);
    var a := if |ps.schema| > 0 then [GrantSchema(ps.schema, schema, r.name)] else [];
    var b := if |ps.table| > 0 then [GrantTables(ps.table, schema, r.name)] else [];
    hide Exec, Grown, GrantPrivileges;
    RunConcat(db, a, b);
    RunOne(db, a);
    SchemaStatement(before, db, r, schema, on, on, of);
    if Run(db, a).Some? {
      var next := Run(db, a).value;
      RunOne(next, b);
      TableStatement(before, next, r, schema, on + {schema}, on, of);
    }
  }

  // The script

  lemma {:induction false} SchemasGrow(before: Db, db: Db, r: Role, order: seq<string>, of: set<string>)
    requires forall s :: s in order ==> s in r.schemaGrants
    requires Grown(before, db, r, {}, {}, of)
    ensures var next := Run(db, GrantSchemas(r, order));
            next.Some? ==> Grown(before, next.value, r, Elements(order), Elements(order), of)
  {
    hide Grown, Exec;
    if order == [] {
      assert Elements(order) == {};
      return;
    }
    var init, last := order[..|order| - 1], order[|order| - 1];
    assert order == init + [last] && Elements(order) == Elements(init) + {last};
    SchemasGrow(before, db, r, init, of);
    RunConcat(db, GrantSchemas(r, init), SchemaGrantStatements(r, last));
    if Run(db, GrantSchemas(r, init)).Some? {
      OneSchema(before, Run(db, GrantSchemas(r, init)).value, r, last, Elements(init), of);
    }
  }

  lemma OneMember(before: Db, db: Db, r: Role, member: string, of: set<string>)
    requires Grown(before, db, r, {}, {}, of)
    ensures var next := Exec(db, GrantRole(member, r.name));
            next.Some? ==> Grown(before, next.value, r, {}, {}, of + {member})
  {}

  lemma {:induction false} MembersGrow(db: Db, r: Role, members: seq<string>)
    ensures var next := Run(db, GrantMembers(r, members));
            next.Some? ==> Grown(db, next.value, r, {}, {}, Elements(members))
  {
    if members == [] { return; }
    var init, last := members[..|members| - 1], members[|members| - 1];
    assert members == init + [last] && Elements(members) == Elements(init) + {last};
    assert GrantMembers(r, members)[..|init|] == GrantMembers(r, init);
    hide Grown;
    MembersGrow(db, r, init);
    if Run(db, GrantMembers(r, init)).Some? {
      OneMember(db, Run(db, GrantMembers(r, init)).value, r, last, Elements(init));
    }
  }

  /** The first two statements leave the role with its declared attributes, new or not. */
  lemma HeadMeans(base: Db, r: Role, password: string)
    ensures var after := Run(base, [EnsureRole(r.name), AlterRole(r.name, AttributesOf(r, password))]);
            after.Some? ==> after.value == WithRole(base, r, password)
  {
    var head := [EnsureRole(r.name), AlterRole(r.name, AttributesOf(r, password))];
    assert head[..1] == [EnsureRole(r.name)];
    RunOne(base, head[..1]);
    var ensured := Run(base, head[..1]);
    if ensured.Some? {
      var altered := ensured.value.attributes[r.name := AttributesOf(r, password)];
      assert altered == base.attributes[r.name := AttributesOf(r, password)];
      assert ensured.value.roles == base.roles + {r.name};
    }
  }

  function WithRole(base: Db, r: Role, password: string): Db {
    base.(roles := base.roles + {r.name}, attributes := base.attributes[r.name := AttributesOf(r, password)])
  }

  lemma CreateGrows(base: Db, r: Role, password: string, order: seq<string>)
    requires forall s :: s in order ==> s in r.schemaGrants
    ensures var after := Run(base, CreateStatements(r, password, order));
            after.Some? ==> Grown(WithRole(base, r, password), after.value, r, Elements(order), Elements(order), Elements(r.memberOf))
  {
    var head := [EnsureRole(r.name), AlterRole(r.name, AttributesOf(r, password))];
    hide Grown, Exec, WithRole;
    RunConcat(base, head + GrantMembers(r, r.memberOf), GrantSchemas(r, order));
    RunConcat(base, head, GrantMembers(r, r.memberOf));
    HeadMeans(base, r, password);
    var named := Run(base, head);
    if named.Some? {
      MembersGrow(named.value, r, r.memberOf);
      var joined := Run(named.value, GrantMembers(r, r.memberOf));
      if joined.Some? { SchemasGrow(named.value, joined.value, r, order, Elements(r.memberOf)); }
    }
  }

  /** The role has exactly its declared attributes, and the catalog holds exactly what it held
      before, the declared memberships, and the declared grants. */
  ghost predicate Created(base: Db, after: Db, r: Role, password: string) {
    && after.roles == base.roles + {r.name} && after.schemas == base.schemas && after.tables == base.tables
    && r.name in after.attributes && after.attributes - {r.name} == base.attributes - {r.name}
    && after.attributes[r.name].password == (if r.login then Some(password) else None)
    && after.attributes[r.name].inherit == r.inherit && after.attributes[r.name].bypassRLS == r.bypassRLS
    && after.attributes[r.name].connectionLimit == (if r.connectionLimit == 0 then None else Some(r.connectionLimit))
    && (forall m :: m in after.members <==> m in base.members || (m.1 == r.name && m.0 in r.memberOf))
    && (forall g :: g in after.schemaGrants <==>
          || g in base.schemaGrants
          || (g.0 == r.name && g.1 in r.schemaGrants && OnSchemaNamed(r.schemaGrants[g.1], g.2)))
    && (forall g :: g in after.tableGrants <==>
          || g in base.tableGrants
          || (g.0 == r.name && g.1 in r.schemaGrants && (g.1, g.2) in base.tables && OnTablesNamed(r.schemaGrants[g.1], g.3)))
  }

  /** So it is after every successful create, of a new role or of one that was there. */
  lemma CreatedExactly(base: Db, r: Role, password: string, order: seq<string>)
    requires Enumerates(order, r) && Run(base, CreateStatements(r, password, order)).Some?
    ensures Created(base, Run(base, CreateStatements(r, password, order)).value, r, password)
  {
    var after := Run(base, CreateStatements(r, password, order)).value;
    CreateGrows(base, r, password, order);
    hide Run, CreateStatements, OnSchemaNamed, OnTablesNamed;
    assert Grown(WithRole(base, r, password), after, r, Elements(order), Elements(order), Elements(r.memberOf));
  }

  /** The script read as SQL and run; None when it cannot be read or fails. */
  ghost function RunText(db: Db, script: string): Option<Db> {
    var tokens := Lex(script);
    if tokens.None? then None
    else match ReadScript(tokens.value)
      case None => None
      case Some(statements) => Run(db, statements)
  }

  lemma RunTextIs(db: Db, script: string, statements: seq<Statement>)
    requires Lex(script).Some? && ReadScript(Lex(script).value) == Some(statements)
    ensures RunText(db, script) == Run(db, statements)
  {}

  /** The text says no less: whoever reads the script as SQL and runs what it says creates the
      role as declared, and by the other script restores the catalog if the name was free. */
  lemma TextCreates(base: Db, r: Role, password: string, order: seq<string>, deleteOrder: seq<string>)
    requires Enumerates(order, r) && Enumerates(deleteOrder, r) && !Contains(r.name, Delimiter(""))
    ensures (forall s :: s in order ==> s in r.schemaGrants) && (forall s :: s in deleteOrder ==> s in r.schemaGrants)
    ensures var created := RunText(base, Script(CreateStatements(r, password, order)));
            created.Some? ==>
              && Created(base, created.value, r, password)
              && (WellFormed(base) && r.name !in base.roles ==>
                    RunText(created.value, Script(DeleteStatements(r, deleteOrder))) == Some(base))
  {
    EnumeratedKeys(order, r);
    EnumeratedKeys(deleteOrder, r);
    RoleScriptsMean(r, password, order);
    RoleScriptsMean(r, password, deleteOrder);
    hide *;
    RunTextIs(base, Script(CreateStatements(r, password, order)), CreateStatements(r, password, order));
    if Run(base, CreateStatements(r, password, order)).Some? {
      CreatedExactly(base, r, password, order);
      if WellFormed(base) && r.name !in base.roles {
        DeleteUndoesCreate(base, r, password, order, deleteOrder);
        var created := Run(base, CreateStatements(r, password, order)).value;
        RunTextIs(created, Script(DeleteStatements(r, deleteOrder)), DeleteStatements(r, deleteOrder));
      }
    }
  }
}
