/** What a role script that fails half way leaves in the catalog
    (internal/api/project_database_role_handlers.go): psql commits statement by statement and
    stops at the first one that fails. */
module RoleFailures {
  import opened DatabaseRoles
  import opened Text
  import opened Wrappers

  /** The catalog that a script leaves, whether or not it runs to its end. */
  ghost function Left(db: Db, statements: seq<Statement>): Db {
    if statements == [] then db
    else
      var before := statements[..|statements| - 1];
      if Run(db, before).None? then Left(db, before)
      else
        var next := Exec(Run(db, before).value, statements[|statements| - 1]);
        if next.Some? then next.value else Run(db, before).value
  }

  lemma {:induction false} LeftOfSuccess(db: Db, statements: seq<Statement>)
    requires Run(db, statements).Some?
    ensures Left(db, statements) == Run(db, statements).value
  {}

  lemma {:induction false} LeftConcat(db: Db, a: seq<Statement>, b: seq<Statement>)
    ensures Left(db, a + b) == if Run(db, a).Some? then Left(Run(db, a).value, b) else Left(db, a)
  {
    if b == [] {
      assert a + b == a;
      if Run(db, a).Some? { LeftOfSuccess(db, a); }
    } else {
      var init, last := b[..|b| - 1], b[|b| - 1];
      assert (a + b)[..|a + b| - 1] == a + init && (a + b)[|a + b| - 1] == last;
      hide Exec;
      LeftConcat(db, a, init);
      RunConcat(db, a, init);
    }
  }

  lemma LeftOne(db: Db, s: Statement)
    ensures Left(db, [s]) == if Exec(db, s).Some? then Exec(db, s).value else db
  {
    assert [s][..0] == [];
    assert Run(db, [s][..0]) == Some(db);
  }

  lemma Widen(db: Db, base: Db, r: Role, on: set<string>, onTables: set<string>, of: set<string>,
              moreOn: set<string>, moreTables: set<string>, moreOf: set<string>)
    requires Extends(db, base, r, on, onTables, of) && on <= moreOn && onTables <= moreTables && of <= moreOf
    ensures Extends(db, base, r, moreOn, moreTables, moreOf)
  {
    hide SchemaPart, TablePart;
  }

  // What a create leaves

  lemma {:induction false} LeftByMembers(db: Db, base: Db, r: Role, members: seq<string>)
    requires Extends(db, base, r, {}, {}, {})
    ensures Extends(Left(db, GrantMembers(r, members)), base, r, {}, {}, Elements(members))
  {
    hide *;
    if Run(db, GrantMembers(r, members)).Some? {
      GrantMembersExtends(db, base, r, members);
      LeftOfSuccess(db, GrantMembers(r, members));
      return;
    }
    if members == [] {
      NoMembers(db, r);
      return;
    }
    var init, last := members[..|members| - 1], members[|members| - 1];
    assert members == init + [last];
    GrantMembersStep(r, init, last);
    LeftConcat(db, GrantMembers(r, init), [GrantRole(last, r.name)]);
    RunConcat(db, GrantMembers(r, init), [GrantRole(last, r.name)]);
    LeftByMembers(db, base, r, init);
    if Run(db, GrantMembers(r, init)).Some? {
      var next := Run(db, GrantMembers(r, init)).value;
      LeftOne(next, GrantRole(last, r.name));
      RunOne(next, [GrantRole(last, r.name)]);
      LeftOfSuccess(db, GrantMembers(r, init));
    }
    Widen(Left(db, GrantMembers(r, init)), base, r, {}, {}, Elements(init), {}, {}, Elements(members));
  }

  lemma NoMembers(db: Db, r: Role)
    ensures Run(db, GrantMembers(r, [])) == Some(db)
  {}

  lemma GrantMembersStep(r: Role, members: seq<string>, member: string)
    ensures GrantMembers(r, members + [member]) == GrantMembers(r, members) + [GrantRole(member, r.name)]
    ensures Elements(members) <= Elements(members + [member])
  {}

  lemma LeftByOneSchema(db: Db, base: Db, r: Role, schema: string, on: set<string>, of: set<string>)
    requires schema in r.schemaGrants && Extends(db, base, r, on, on, of)
    ensures Extends(Left(db, SchemaGrantStatements(r, schema)), base, r, on + {schema}, on + {schema}, of)
  {
    var ps := GrantPrivileges(r.schemaGrants[schema]);
    var a := if |ps.schema| > 0 then [GrantSchema(ps.schema, schema, r.name)] else [];
    var b := if |ps.table| > 0 then [GrantTables(ps.table, schema, r.name)] else [];
    hide Exec, Extends, GrantPrivileges;
    LeftConcat(db, a, b);
    RunOne(db, a);
    GrantSchemaPart(db, base, r, schema, on, on, of);
    if |ps.schema| > 0 { LeftOne(db, GrantSchema(ps.schema, schema, r.name)); }
    if Run(db, a).Some? {
      var next := Run(db, a).value;
      GrantTablesPart(next, base, r, schema, on + {schema}, on, of);
      if |ps.table| > 0 { LeftOne(next, GrantTables(ps.table, schema, r.name)); }
      Widen(next, base, r, on + {schema}, on, of, on + {schema}, on + {schema}, of);
    } else {
      Widen(db, base, r, on, on, of, on + {schema}, on + {schema}, of);
    }
  }

  lemma GrantSchemasStep(r: Role, order: seq<string>, schema: string)
    requires forall s :: s in order + [schema] ==> s in r.schemaGrants
    ensures schema in r.schemaGrants && forall s :: s in order ==> s in r.schemaGrants
    ensures GrantSchemas(r, order + [schema]) == GrantSchemas(r, order) + SchemaGrantStatements(r, schema)
    ensures RevokeSchemas(r, order + [schema]) == RevokeSchemas(r, order) + SchemaRevokeStatements(r, schema)
    ensures Elements(order + [schema]) == Elements(order) + {schema}
  {
    assert (order + [schema])[..|order|] == order && schema in order + [schema];
    assert forall s :: s in order ==> s in order + [schema];
    hide SchemaGrantStatements, SchemaRevokeStatements;
  }

  lemma NoSchemas(db: Db, r: Role)
    ensures Run(db, GrantSchemas(r, [])) == Some(db) && Left(db, GrantSchemas(r, [])) == db && Elements([]) == {}
    ensures Run(db, RevokeSchemas(r, [])) == Some(db)
  {}

  lemma {:induction false} LeftBySchemas(db: Db, base: Db, r: Role, order: seq<string>, of: set<string>)
    requires forall s :: s in order ==> s in r.schemaGrants
    requires Extends(db, base, r, {}, {}, of)
    ensures Extends(Left(db, GrantSchemas(r, order)), base, r, Elements(order), Elements(order), of)
  {
    hide *;
    if order == [] {
      NoSchemas(db, r);
      return;
    }
    var init, last := order[..|order| - 1], order[|order| - 1];
    assert order == init + [last];
    GrantSchemasStep(r, init, last);
    LeftBySchemas(db, base, r, init, of);
    LeftConcat(db, GrantSchemas(r, init), SchemaGrantStatements(r, last));
    if Run(db, GrantSchemas(r, init)).Some? {
      LeftOfSuccess(db, GrantSchemas(r, init));
      LeftByOneSchema(Run(db, GrantSchemas(r, init)).value, base, r, last, Elements(init), of);
    } else {
      Widen(Left(db, GrantSchemas(r, init)), base, r, Elements(init), Elements(init), of, Elements(order), Elements(order), of);
    }
  }

  lemma LeavesNothing(base: Db, r: Role, password: string, rest: seq<Statement>)
    requires WellFormed(base) && r.name in SPECIAL_ROLES
    ensures Left(base, [EnsureRole(r.name), AlterRole(r.name, AttributesOf(r, password))] + rest) == base
  {
    var head := [EnsureRole(r.name), AlterRole(r.name, AttributesOf(r, password))];
    HeadFails(base, r, password);
    assert Left(base, head) == base by {
      assert head == [EnsureRole(r.name)] + [AlterRole(r.name, AttributesOf(r, password))];
      LeftConcat(base, [EnsureRole(r.name)], [AlterRole(r.name, AttributesOf(r, password))]);
      LeftOne(base, EnsureRole(r.name));
      RunOne(base, [EnsureRole(r.name)]);
    }
    hide Left, Run, Exec, WellFormed;
    LeftConcat(base, head, rest);
  }

  /** For a free name, a create that fails at once, because no role can have the name, leaves
      nothing. Any other, whether or not it runs to its end, leaves the catalog as it was, plus
      the role with at most its declared grants and memberships. */
  lemma CreateLeaves(base: Db, r: Role, password: string, order: seq<string>)
    requires WellFormed(base) && r.name !in base.roles
    requires forall s :: s in order ==> s in r.schemaGrants
    ensures var left := Left(base, CreateStatements(r, password, order));
            if r.name in SPECIAL_ROLES then left == base
            else
              && Extends(left, base, r, Elements(order), Elements(order), Elements(r.memberOf))
              && left.roles == base.roles + {r.name}
  {
    var head, members, schemas := [EnsureRole(r.name), AlterRole(r.name, AttributesOf(r, password))],
      GrantMembers(r, r.memberOf), GrantSchemas(r, order);
    assert CreateStatements(r, password, order) == head + members + schemas == head + (members + schemas);
    if r.name in SPECIAL_ROLES {
      LeavesNothing(base, r, password, members + schemas);
      return;
    }
    hide Left, Run, Exec, WellFormed, GrantMembers, GrantSchemas, Elements, AttributesOf, SchemaPart, TablePart;
    HeadExtends(base, r, password);
    LeftConcat(base, head + members, schemas);
    LeftConcat(base, head, members);
    RunConcat(base, head, members);
    var bare := Run(base, head).value;
    LeftByMembers(bare, base, r, r.memberOf);
    if Run(bare, members).Some? {
      LeftOfSuccess(bare, members);
      LeftBySchemas(Run(bare, members).value, base, r, order, Elements(r.memberOf));
    } else {
      Widen(Left(bare, members), base, r, {}, {}, Elements(r.memberOf), Elements(order), Elements(order), Elements(r.memberOf));
    }
  }

  // When deleting by the declaration cleans it up

  lemma RevokeNamesSchema(db: Db, privileges: seq<string>, schema: string, role: string)
    ensures var next := Exec(db, RevokeTables(privileges, schema, role));
            next.Some? ==> schema in db.schemas && ValidList(privileges) && next.value.schemas == db.schemas
    ensures Exec(db, RevokeSchema(privileges, schema, role)).Some? ==> schema in db.schemas && ValidList(privileges)
  {}

  lemma UsableOne(base: Db, r: Role, schema: string)
    requires schema in r.schemaGrants
    ensures Usable(base, r, [schema]) <==>
              var ps := GrantPrivileges(r.schemaGrants[schema]);
              && (|ps.schema| > 0 || |ps.table| > 0 ==> schema in base.schemas)
              && ValidList(ps.schema) && ValidList(ps.table)
  {
    hide GrantPrivileges;
    assert schema in [schema];
  }

  lemma RevokeNeedsSchema(db: Db, base: Db, r: Role, schema: string)
    requires schema in r.schemaGrants && db.schemas == base.schemas
    requires Run(db, SchemaRevokeStatements(r, schema)).Some?
    ensures Usable(base, r, [schema])
  {
    hide GrantPrivileges, Run, Exec, Usable;
    var ps := GrantPrivileges(r.schemaGrants[schema]);
    var a := if |ps.table| > 0 then [RevokeTables(ps.table, schema, r.name)] else [];
    var b := if |ps.schema| > 0 then [RevokeSchema(ps.schema, schema, r.name)] else [];
    UsableOne(base, r, schema);
    RunConcat(db, a, b);
    RunOne(db, a);
    RunOne(Run(db, a).value, b);
    RevokeNamesSchema(db, ps.table, schema, r.name);
    RevokeNamesSchema(Run(db, a).value, ps.schema, schema, r.name);
  }

  lemma UsableStep(base: Db, r: Role, order: seq<string>, schema: string)
    ensures Usable(base, r, order + [schema]) <==> Usable(base, r, order) && Usable(base, r, [schema])
  {
    assert forall s :: s in order + [schema] <==> s in order || s in [schema];
    hide GrantPrivileges;
  }

  lemma KeepsSchemas(db: Db, base: Db, r: Role, on: set<string>, of: set<string>)
    requires Extends(db, base, r, on, on, of)
    ensures db.schemas == base.schemas
  {}

  /** Revoking fails if a grant names a schema that is not there. */
  lemma {:induction false} RevokesNeedSchemas(db: Db, base: Db, r: Role, order: seq<string>, on: set<string>, of: set<string>)
    requires forall s :: s in order ==> s in r.schemaGrants
    requires Extends(db, base, r, on, on, of) && r.name !in base.roles && WellFormed(base)
    requires Run(db, RevokeSchemas(r, order)).Some?
    ensures Usable(base, r, order)
  {
    hide *;
    if order == [] {
      NothingToRevoke(base, r);
      return;
    }
    var init, last := order[..|order| - 1], order[|order| - 1];
    assert order == init + [last];
    GrantSchemasStep(r, init, last);
    RunConcat(db, RevokeSchemas(r, init), SchemaRevokeStatements(r, last));
    RevokesNeedSchemas(db, base, r, init, on, of);
    RevokeSchemasExtends(db, base, r, init, on, of);
    var next := Run(db, RevokeSchemas(r, init)).value;
    KeepsSchemas(next, base, r, on - Elements(init), of);
    RevokeNeedsSchema(next, base, r, last);
    UsableStep(base, r, init, last);
  }

  /** Deleting by the declaration cleans up what a create left, complete or not, exactly if the
      name can be a role's, every list of grants can be granted, every schema with a grant exists,
      and every role in the membership list exists or is the role itself. So a create that failed
      on a grant list, or on a missing schema or role, leaves a role that its own declaration
      cannot delete. */
  lemma DeleteCleansUpIff(base: Db, r: Role, password: string, createOrder: seq<string>, deleteOrder: seq<string>)
    requires WellFormed(base) && r.name !in base.roles && Enumerates(createOrder, r) && Enumerates(deleteOrder, r)
    ensures Run(Left(base, CreateStatements(r, password, createOrder)), DeleteStatements(r, deleteOrder)) == Some(base)
            <==> r.name !in SPECIAL_ROLES && Usable(base, r, deleteOrder) && Revocable(base, r, r.memberOf)
  {
    hide Left, Run, Exec, WellFormed, Extends, Usable, Revocable, CreateStatements;
    CreateLeaves(base, r, password, createOrder);
    SameSchemas(base, r, createOrder, deleteOrder);
    var left := Left(base, CreateStatements(r, password, createOrder));
    if r.name in SPECIAL_ROLES {
      DropFails(left, RevokeSchemas(r, deleteOrder) + RevokeMembers(r, r.memberOf), r.name);
    } else if Usable(base, r, deleteOrder) && Revocable(base, r, r.memberOf) {
      DeleteLeadsBack(left, base, r, deleteOrder);
    } else if Run(left, DeleteStatements(r, deleteOrder)).Some? {
      DeleteNeeds(left, base, r, deleteOrder);
    }
  }

  lemma DropFails(db: Db, statements: seq<Statement>, role: string)
    requires role in SPECIAL_ROLES
    ensures Run(db, statements + [DropRole(role)]).None?
  {
    RunConcat(db, statements, [DropRole(role)]);
    if Run(db, statements).Some? { RunOne(Run(db, statements).value, [DropRole(role)]); }
  }

  lemma DeleteNeeds(db: Db, base: Db, r: Role, order: seq<string>)
    requires WellFormed(base) && r.name !in base.roles && Enumerates(order, r)
    requires Extends(db, base, r, Elements(order), Elements(order), Elements(r.memberOf))
    requires Run(db, DeleteStatements(r, order)).Some?
    ensures Usable(base, r, order) && Revocable(base, r, r.memberOf)
  {
    assert Elements(order) - Elements(order) == {};
    hide Run, Exec, WellFormed, Extends, Usable, Revocable;
    RunConcat(db, RevokeSchemas(r, order) + RevokeMembers(r, r.memberOf), [DropRole(r.name)]);
    RunConcat(db, RevokeSchemas(r, order), RevokeMembers(r, r.memberOf));
    RevokesNeedSchemas(db, base, r, order, Elements(order), Elements(r.memberOf));
    RevokeSchemasExtends(db, base, r, order, Elements(order), Elements(r.memberOf));
    RevokeMembersExtends(Run(db, RevokeSchemas(r, order)).value, base, r, r.memberOf, Elements(r.memberOf));
  }

  // Grant lists that cannot be granted

  /** A grant list as the store keeps it: known grants, each of them once. */
  ghost predicate StoredGrants(parts: seq<string>) {
    && (forall g :: g in parts ==> g in ["usage", "create", "select", "insert", "update", "delete", "all"])
    && (forall i, j :: 0 <= i < j < |parts| ==> parts[i] != parts[j])
  }

  lemma GrantsAreTrimmed(g: string)
    requires g in ["usage", "create", "select", "insert", "update", "delete", "all"]
    ensures ToLower(TrimSpace(g)) == g
  {
    TrimSpaceOfTrimmed(g);
    assert forall i :: 0 <= i < |g| ==> 'a' <= g[i] <= 'z';
  }

  lemma AmongStored(parts: seq<string>, grant: string)
    requires StoredGrants(parts)
    ensures Among(parts, grant) <==> grant in parts
  {
    hide ToLower, TrimSpace;
    forall g | g in parts ensures ToLower(TrimSpace(g)) == g { GrantsAreTrimmed(g); }
    if i :| 0 <= i < |parts| && parts[i] == grant { assert ToLower(TrimSpace(parts[i])) == grant; }
    if Among(parts, grant) {
      var i :| 0 <= i < |parts| && ToLower(TrimSpace(parts[i])) == grant;
      assert parts[i] in parts;
    }
  }

  lemma Two<T>(xs: seq<T>, a: T, b: T)
    requires a in xs && b in xs && a != b
    ensures |xs| > 1
  {}

  lemma OnlyAll()
    ensures AddGrants(Privileges([], []), ["all"]) == Privileges(["ALL PRIVILEGES"], ["ALL PRIVILEGES"])
  {
    GrantsAreTrimmed("all");
    hide ToLower, TrimSpace;
    NextGrant([], "all");
    AmongNone();
    assert [] + ["all"] == ["all"];
  }

  ghost predicate NamesOther(parts: seq<string>) {
    || Among(parts, "usage") || Among(parts, "create") || Among(parts, "select")
    || Among(parts, "insert") || Among(parts, "update") || Among(parts, "delete")
  }

  /** A list that names `all` and another privilege puts both in one statement. */
  lemma AllWithOther(parts: seq<string>, ps: Privileges)
    requires NamedBy(parts, ps) && NamesOther(parts) && Among(parts, "all")
    ensures !ValidList(ps.schema) || !ValidList(ps.table)
  {
    hide Among;
    if Among(parts, "usage") { Two(ps.schema, "USAGE", "ALL PRIVILEGES"); }
    else if Among(parts, "create") { Two(ps.schema, "CREATE", "ALL PRIVILEGES"); }
    else if Among(parts, "select") { Two(ps.table, "SELECT", "ALL PRIVILEGES"); }
    else if Among(parts, "insert") { Two(ps.table, "INSERT", "ALL PRIVILEGES"); }
    else if Among(parts, "update") { Two(ps.table, "UPDATE", "ALL PRIVILEGES"); }
    else { Two(ps.table, "DELETE", "ALL PRIVILEGES"); }
  }

  lemma WithoutAll(parts: seq<string>, ps: Privileges)
    requires NamedBy(parts, ps) && !Among(parts, "all")
    ensures ValidList(ps.schema) && ValidList(ps.table)
  {
    hide Among;
  }

  lemma JustAll()
    ensures var ps := AddGrants(Privileges([], []), ["all"]); ValidList(ps.schema) && ValidList(ps.table)
  {
    OnlyAll();
    hide AddGrants;
  }

  /** A stored list can be granted exactly if `all` stands alone in it. */
  lemma AllAloneIff(parts: seq<string>)
    requires StoredGrants(parts)
    ensures var ps := AddGrants(Privileges([], []), parts);
            ValidList(ps.schema) && ValidList(ps.table) <==> ("all" in parts ==> parts == ["all"])
  {
    hide *;
    var ps := AddGrants(Privileges([], []), parts);
    PrivilegesNamed(parts);
    AmongStored(parts, "all");
    if "all" !in parts {
      WithoutAll(parts, ps);
    } else if parts == ["all"] {
      JustAll();
    } else {
      OtherThanAll(parts);
      AllWithOther(parts, ps);
    }
  }

  lemma OtherThanAll(parts: seq<string>)
    requires StoredGrants(parts) && "all" in parts && parts != ["all"]
    ensures NamesOther(parts)
  {
    hide ToLower, TrimSpace, Among;
    var i := if parts[0] == "all" then 1 else 0;
    assert parts[0] in parts && parts[i] in parts && parts[i] != "all";
    AmongStored(parts, parts[i]);
  }

  /** For instance, `all` beside `select`: the role stays, and its declaration cannot delete it. */
  lemma AllBesideSelect(base: Db, r: Role, password: string)
    requires WellFormed(base) && r.name !in base.roles && r.name !in SPECIAL_ROLES
    requires r.memberOf == [] && r.schemaGrants == map["public" := "all,select"]
    ensures var left := Left(base, CreateStatements(r, password, ["public"]));
            r.name in left.roles && Run(left, DeleteStatements(r, ["public"])) != Some(base)
  {
    var order := ["public"];
    assert "public" in order && forall s :: s in order ==> s == "public";
    AllAndSelect();
    hide *;
    CannotBeGranted(base, r);
    EnumeratesOne(r);
    CreateLeaves(base, r, password, order);
    DeleteCleansUpIff(base, r, password, order, order);
  }

  lemma EnumeratesOne(r: Role)
    requires r.schemaGrants == map["public" := "all,select"]
    ensures Enumerates(["public"], r) && forall s :: s in ["public"] ==> s in r.schemaGrants
  {}

  lemma AllAndSelect()
    ensures Split("all,select", ',') == ["all"] + ["select"]
  {
    hide *;
    SplitConcat("all", ',', "select");
    SplitWhole("all", ',');
    SplitWhole("select", ',');
    assert "all" + [','] + "select" == "all,select";
  }

  lemma AllAndSelectStored()
    ensures StoredGrants(["all", "select"]) && ["all"] + ["select"] == ["all", "select"] != ["all"] && "all" in ["all", "select"]
  {
    assert "all" != "select";
  }

  lemma PrivilegesOf(grants: string)
    ensures GrantPrivileges(grants) == AddGrants(Privileges([], []), Split(grants, ','))
  {}

  lemma CannotBeGranted(base: Db, r: Role)
    requires r.schemaGrants == map["public" := "all,select"]
    ensures !Usable(base, r, ["public"])
  {
    hide *;
    AllAndSelect();
    AllAndSelectStored();
    PrivilegesOf("all,select");
    AllAloneIff(["all", "select"]);
    UsableOne(base, r, "public");
  }
}
