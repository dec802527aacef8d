/** Database roles (internal/api/project_database_role_handlers.go): the statements that
    create a role and those that delete it, run against a small model of the catalog.
    Statements that fail abort the script (psql runs with ON_ERROR_STOP). */
module DatabaseRoles {
  import opened Text
  import opened Wrappers

  datatype Role = Role(name: string, login: bool, inherit: bool, bypassRLS: bool, connectionLimit: int,
                       memberOf: seq<string>, schemaGrants: map<string, string>)

  // Grant lists

  /** The schema and table privileges that a comma-separated grant list names. */
  datatype Privileges = Privileges(schema: seq<string>, table: seq<string>)

  function AddGrant(ps: Privileges, grant: string): Privileges {
    var g := ToLower(TrimSpace(grant));
    if g == "usage" then ps.(schema := ps.schema + ["USAGE"])
    else if g == "create" then ps.(schema := ps.schema + ["CREATE"])
    else if g == "select" then ps.(table := ps.table + ["SELECT"])
    else if g == "insert" then ps.(table := ps.table + ["INSERT"])
    else if g == "update" then ps.(table := ps.table + ["UPDATE"])
    else if g == "delete" then ps.(table := ps.table + ["DELETE"])
    else if g == "all" then Privileges(ps.schema + ["ALL PRIVILEGES"], ps.table + ["ALL PRIVILEGES"])
    else ps
  }

  function AddGrants(ps: Privileges, grants: seq<string>): Privileges {
    if grants == [] then ps else AddGrant(AddGrants(ps, grants[..|grants| - 1]), grants[|grants| - 1])
  }

  function GrantPrivileges(grants: string): Privileges {
    AddGrants(Privileges([], []), Split(grants, ','))
  }

  /** The list names the grant, in whatever case and with whatever white space around it. */
  predicate Names(grants: string, grant: string) { Among(Split(grants, ','), grant) }

  predicate Among(parts: seq<string>, grant: string) {
    exists i :: 0 <= i < |parts| && ToLower(TrimSpace(parts[i])) == grant
  }

  lemma AmongStep(parts: seq<string>, part: string, grant: string)
    ensures Among(parts + [part], grant) <==> Among(parts, grant) || ToLower(TrimSpace(part)) == grant
  {
    var all := parts + [part];
    hide ToLower, TrimSpace;
    assert forall i :: 0 <= i < |parts| ==> all[i] == parts[i];
    assert all[|parts|] == part;
  }

  lemma AmongNone()
    ensures forall grant :: !Among([], grant)
    ensures AddGrants(Privileges([], []), []) == Privileges([], [])
  {}

  lemma NextGrant(parts: seq<string>, part: string)
    ensures AddGrants(Privileges([], []), parts + [part]) == AddGrant(AddGrants(Privileges([], []), parts), part)
  {
    assert (parts + [part])[..|parts|] == parts;
  }

  /** The privileges are exactly those that the parts name. */
  ghost predicate NamedBy(parts: seq<string>, ps: Privileges) {
    SchemaNamed(parts, ps.schema) && TableNamed(parts, ps.table)
  }

  ghost predicate SchemaNamed(parts: seq<string>, privileges: seq<string>) {
    forall p :: p in privileges <==>
      (p == "USAGE" && Among(parts, "usage")) || (p == "CREATE" && Among(parts, "create"))
      || (p == "ALL PRIVILEGES" && Among(parts, "all"))
  }

  ghost predicate TableNamed(parts: seq<string>, privileges: seq<string>) {
    forall p :: p in privileges <==>
      (p == "SELECT" && Among(parts, "select")) || (p == "INSERT" && Among(parts, "insert"))
      || (p == "UPDATE" && Among(parts, "update")) || (p == "DELETE" && Among(parts, "delete"))
      || (p == "ALL PRIVILEGES" && Among(parts, "all"))
  }

  lemma SchemaStep(parts: seq<string>, part: string, ps: Privileges)
    requires SchemaNamed(parts, ps.schema)
    ensures SchemaNamed(parts + [part], AddGrant(ps, part).schema)
  {
    hide ToLower, TrimSpace, Among;
    AmongStep(parts, part, "usage");
    AmongStep(parts, part, "create");
    AmongStep(parts, part, "all");
  }

  lemma TableStep(parts: seq<string>, part: string, ps: Privileges)
    requires TableNamed(parts, ps.table)
    ensures TableNamed(parts + [part], AddGrant(ps, part).table)
  {
    hide ToLower, TrimSpace, Among;
    AmongStep(parts, part, "select");
    AmongStep(parts, part, "insert");
    AmongStep(parts, part, "update");
    AmongStep(parts, part, "delete");
    AmongStep(parts, part, "all");
  }

  lemma NamedStep(parts: seq<string>, part: string, ps: Privileges)
    requires NamedBy(parts, ps)
    ensures NamedBy(parts + [part], AddGrant(ps, part))
  {
    hide SchemaNamed, TableNamed, AddGrant;
    SchemaStep(parts, part, ps);
    TableStep(parts, part, ps);
  }

  lemma NamedNone()
    ensures NamedBy([], AddGrants(Privileges([], []), []))
  {
    AmongNone();
    hide Among;
  }

  /** Exactly the named privileges come out. */
  lemma {:induction false} PrivilegesNamed(parts: seq<string>)
    ensures NamedBy(parts, AddGrants(Privileges([], []), parts))
  {
    hide *;
    if parts == [] {
      NamedNone();
      return;
    }
    var init, last := parts[..|parts| - 1], parts[|parts| - 1];
    assert parts == init + [last];
    PrivilegesNamed(init);
    NextGrant(init, last);
    NamedStep(init, last, AddGrants(Privileges([], []), init));
  }

  method DatabaseRoleGrantPrivileges(grants: string) returns (schemaPrivileges: seq<string>, tablePrivileges: seq<string>)
    ensures Privileges(schemaPrivileges, tablePrivileges) == GrantPrivileges(grants)
    ensures forall p :: p in schemaPrivileges <==>
              (p == "USAGE" && Names(grants, "usage")) || (p == "CREATE" && Names(grants, "create"))
              || (p == "ALL PRIVILEGES" && Names(grants, "all"))
    ensures forall p :: p in tablePrivileges <==>
              (p == "SELECT" && Names(grants, "select")) || (p == "INSERT" && Names(grants, "insert"))
              || (p == "UPDATE" && Names(grants, "update")) || (p == "DELETE" && Names(grants, "delete"))
              || (p == "ALL PRIVILEGES" && Names(grants, "all"))
  {
    PrivilegesNamed(Split(grants, ','));
    schemaPrivileges, tablePrivileges := [], [];
    var parts := Split(grants, ',');
    for i := 0 to |parts|
      invariant Privileges(schemaPrivileges, tablePrivileges) == AddGrants(Privileges([], []), parts[..i])
    {
      assert parts[..i + 1][..i] == parts[..i];
      var grant := ToLower(TrimSpace(parts[i]));
      if grant == "usage" {
        schemaPrivileges := schemaPrivileges + ["USAGE"];
      } else if grant == "create" {
        schemaPrivileges := schemaPrivileges + ["CREATE"];
      } else if grant == "select" {
        tablePrivileges := tablePrivileges + ["SELECT"];
      } else if grant == "insert" {
        tablePrivileges := tablePrivileges + ["INSERT"];
      } else if grant == "update" {
        tablePrivileges := tablePrivileges + ["UPDATE"];
      } else if grant == "delete" {
        tablePrivileges := tablePrivileges + ["DELETE"];
      } else if grant == "all" {
        schemaPrivileges := schemaPrivileges + ["ALL PRIVILEGES"];
        tablePrivileges := tablePrivileges + ["ALL PRIVILEGES"];
      }
    }
    assert parts[..|parts|] == parts;
  }

  // Statements

  datatype Attributes = Attributes(password: Option<string>, inherit: bool, bypassRLS: bool, connectionLimit: Option<int>)

  datatype Statement =
    | EnsureRole(role: string)
    | AlterRole(role: string, attributes: Attributes)
    | GrantRole(member: string, role: string)
    | GrantSchema(privileges: seq<string>, schema: string, role: string)
    | GrantTables(privileges: seq<string>, schema: string, role: string)
    | RevokeTables(privileges: seq<string>, schema: string, role: string)
    | RevokeSchema(privileges: seq<string>, schema: string, role: string)
    | RevokeRole(member: string, role: string)
    | DropRole(role: string)

  function SchemaGrantStatements(r: Role, schema: string): seq<Statement>
    requires schema in r.schemaGrants
  {
    var ps := GrantPrivileges(r.schemaGrants[schema]);
    (if |ps.schema| > 0 then [GrantSchema(ps.schema, schema, r.name)] else [])
    + (if |ps.table| > 0 then [GrantTables(ps.table, schema, r.name)] else [])
  }

  function SchemaRevokeStatements(r: Role, schema: string): seq<Statement>
    requires schema in r.schemaGrants
  {
    var ps := GrantPrivileges(r.schemaGrants[schema]);
    (if |ps.table| > 0 then [RevokeTables(ps.table, schema, r.name)] else [])
    + (if |ps.schema| > 0 then [RevokeSchema(ps.schema, schema, r.name)] else [])
  }

  /** The order in which a loop over the grant map visits its schemas. */
  ghost predicate Enumerates(order: seq<string>, r: Role) {
    && (forall s :: s in order <==> s in r.schemaGrants)
    && (forall i, j :: 0 <= i < j < |order| ==> order[i] != order[j])
  }

  function GrantMembers(r: Role, members: seq<string>): seq<Statement> {
    seq(|members|, i requires 0 <= i < |members| => GrantRole(members[i], r.name))
  }

  function RevokeMembers(r: Role, members: seq<string>): seq<Statement> {
    seq(|members|, i requires 0 <= i < |members| => RevokeRole(members[i], r.name))
  }

  function GrantSchemas(r: Role, order: seq<string>): seq<Statement>
    requires forall s :: s in order ==> s in r.schemaGrants
  {
    if order == [] then []
    else
      assert order[|order| - 1] in order;
      GrantSchemas(r, order[..|order| - 1]) + SchemaGrantStatements(r, order[|order| - 1])
  }

  function RevokeSchemas(r: Role, order: seq<string>): seq<Statement>
    requires forall s :: s in order ==> s in r.schemaGrants
  {
    if order == [] then []
    else
      assert order[|order| - 1] in order;
      RevokeSchemas(r, order[..|order| - 1]) + SchemaRevokeStatements(r, order[|order| - 1])
  }

  function AttributesOf(r: Role, password: string): Attributes {
    Attributes(if r.login then Some(password) else None, r.inherit, r.bypassRLS,
               if r.connectionLimit != 0 then Some(r.connectionLimit) else None)
  }

  function CreateStatements(r: Role, password: string, order: seq<string>): seq<Statement>
    requires forall s :: s in order ==> s in r.schemaGrants
  {
    [EnsureRole(r.name), AlterRole(r.name, AttributesOf(r, password))] + GrantMembers(r, r.memberOf) + GrantSchemas(r, order)
  }

  function DeleteStatements(r: Role, order: seq<string>): seq<Statement>
    requires forall s :: s in order ==> s in r.schemaGrants
  {
    RevokeSchemas(r, order) + RevokeMembers(r, r.memberOf) + [DropRole(r.name)]
  }

  // The catalog

  datatype Db = Db(
    roles: set<string>,
    attributes: map<string, Attributes>,
    members: set<(string, string)>,                       // (granted role, role it was granted to)
    schemas: set<string>,
    tables: set<(string, string)>,                        // (schema, table)
    schemaGrants: set<(string, string, string)>,          // (role, schema, privilege)
    tableGrants: set<(string, string, string, string)>)   // (role, schema, table, privilege)

  const SCHEMA_PRIVILEGES := {"USAGE", "CREATE"}
  const TABLE_PRIVILEGES := {"SELECT", "INSERT", "UPDATE", "DELETE", "TRUNCATE", "REFERENCES", "TRIGGER"}
  const SPECIAL_ROLES := {"public", "none"}   // what no role can be called
  const DEFAULT_ATTRIBUTES := Attributes(None, true, false, None)

  /** ALL PRIVILEGES stands alone in a statement. */
  predicate ValidList(privileges: seq<string>) { "ALL PRIVILEGES" in privileges ==> |privileges| == 1 }

  function Expand(privileges: seq<string>, all: set<string>): set<string> {
    (if "ALL PRIVILEGES" in privileges then all else {}) + (set p | p in privileges && p in all)
  }

  function OnSchema(role: string, schema: string, ps: set<string>): set<(string, string, string)> {
    set p | p in ps :: (role, schema, p)
  }

  function OnTables(db: Db, role: string, schema: string, ps: set<string>): set<(string, string, string, string)> {
    set t, p | t in db.tables && t.0 == schema && p in ps :: (role, schema, t.1, p)
  }

  /** No privilege depends on the role. */
  ghost predicate NothingGranted(db: Db, role: string) {
    && (forall g :: g in db.schemaGrants ==> g.0 != role)
    && (forall g :: g in db.tableGrants ==> g.0 != role)
  }

  /** One statement; None when it fails. */
  ghost function Exec(db: Db, s: Statement): Option<Db> {
    match s
    case EnsureRole(role) =>
      if role in db.roles then Some(db)
      else if role in SPECIAL_ROLES then None
      else Some(db.(roles := db.roles + {role}, attributes := db.attributes[role := DEFAULT_ATTRIBUTES]))
    case AlterRole(role, attributes) =>
      if role in db.roles then Some(db.(attributes := db.attributes[role := attributes])) else None
    case GrantRole(member, role) =>
      if {member, role} <= db.roles && member != role then Some(db.(members := db.members + {(member, role)})) else None
    case GrantSchema(ps, schema, role) =>
      if ValidList(ps) && schema in db.schemas && role in db.roles
      then Some(db.(schemaGrants := db.schemaGrants + OnSchema(role, schema, Expand(ps, SCHEMA_PRIVILEGES)))) else None
    case GrantTables(ps, schema, role) =>
      if ValidList(ps) && schema in db.schemas && role in db.roles
      then Some(db.(tableGrants := db.tableGrants + OnTables(db, role, schema, Expand(ps, TABLE_PRIVILEGES)))) else None
    case RevokeTables(ps, schema, role) =>
      if ValidList(ps) && schema in db.schemas && role in db.roles
      then Some(db.(tableGrants := db.tableGrants - OnTables(db, role, schema, Expand(ps, TABLE_PRIVILEGES)))) else None
    case RevokeSchema(ps, schema, role) =>
      if ValidList(ps) && schema in db.schemas && role in db.roles
      then Some(db.(schemaGrants := db.schemaGrants - OnSchema(role, schema, Expand(ps, SCHEMA_PRIVILEGES)))) else None
    case RevokeRole(member, role) =>
      if {member, role} <= db.roles then Some(db.(members := db.members - {(member, role)})) else None
    case DropRole(role) =>
      if role in SPECIAL_ROLES then None
      else if role !in db.roles then Some(db)
      else if NothingGranted(db, role)
      then Some(db.(roles := db.roles - {role}, attributes := db.attributes - {role},
                    members := set m | m in db.members && m.0 != role && m.1 != role))
      else None
  }

  ghost function Run(db: Db, statements: seq<Statement>): Option<Db>
  {
    if statements == [] then Some(db)
    else match Run(db, statements[..|statements| - 1])
      case None => None
      case Some(next) => Exec(next, statements[|statements| - 1])
  }

  /** Grants, memberships and attributes speak of existing roles only. */
  ghost predicate WellFormed(db: Db) {
    && db.attributes.Keys == db.roles && db.roles !! SPECIAL_ROLES
    && (forall m :: m in db.members ==> m.0 in db.roles && m.1 in db.roles)
    && (forall g :: g in db.schemaGrants ==> g.0 in db.roles)
    && (forall g :: g in db.tableGrants ==> g.0 in db.roles)
  }

  lemma {:induction false} RunConcat(db: Db, a: seq<Statement>, b: seq<Statement>)
    ensures Run(db, a + b) == match Run(db, a) case None => None case Some(next) => Run(next, b)
  {
    if b == [] {
      assert a + b == a;
    } else {
      assert (a + b)[..|a + b| - 1] == a + b[..|b| - 1];
      RunConcat(db, a, b[..|b| - 1]);
    }
  }

  // Undoing

  /** The catalog is `base` plus the role, which holds at most what its declaration grants
      on the schemas in `on`, on the tables of the schemas in `onTables`, and the memberships
      in `of`. */
  ghost predicate Extends(db: Db, base: Db, r: Role, on: set<string>, onTables: set<string>, of: set<string>) {
    && db.roles == base.roles + {r.name}
    && db.attributes.Keys == db.roles && db.attributes - {r.name} == base.attributes
    && db.schemas == base.schemas && db.tables == base.tables
    && base.members <= db.members
    && (forall m :: m in db.members && m !in base.members ==> m.1 == r.name && m.0 in of)
    && base.schemaGrants <= db.schemaGrants
    && (forall g :: g in db.schemaGrants && g !in base.schemaGrants ==> g.0 == r.name && g.1 in on && g.2 in SchemaPart(r, g.1))
    && base.tableGrants <= db.tableGrants
    && (forall g :: g in db.tableGrants && g !in base.tableGrants ==>
          g.0 == r.name && g.1 in onTables && (g.1, g.2) in db.tables && g.3 in TablePart(r, g.1))
  }

  function SchemaPart(r: Role, schema: string): set<string> {
    if schema in r.schemaGrants then Expand(GrantPrivileges(r.schemaGrants[schema]).schema, SCHEMA_PRIVILEGES) else {}
  }

  function TablePart(r: Role, schema: string): set<string> {
    if schema in r.schemaGrants then Expand(GrantPrivileges(r.schemaGrants[schema]).table, TABLE_PRIVILEGES) else {}
  }

  /** Statements for these grants are valid, and name schemas that are there. */
  ghost predicate Usable(base: Db, r: Role, order: seq<string>) {
    forall s :: s in order && s in r.schemaGrants ==>
      var ps := GrantPrivileges(r.schemaGrants[s]);
      && (|ps.schema| > 0 || |ps.table| > 0 ==> s in base.schemas)
      && ValidList(ps.schema) && ValidList(ps.table)
  }

  ghost predicate Joinable(base: Db, r: Role, members: seq<string>) {
    forall m :: m in members ==> m in base.roles
  }

  /** The memberships that can be revoked; a role is never a member of itself. */
  ghost predicate Revocable(base: Db, r: Role, members: seq<string>) {
    forall m :: m in members ==> m in base.roles || m == r.name
  }

  function Elements(xs: seq<string>): set<string> { set x | x in xs }

  lemma GrantOneSchema(db: Db, base: Db, r: Role, schema: string, on: set<string>, of: set<string>)
    requires schema in r.schemaGrants && Extends(db, base, r, on, on, of)
    ensures var next := Run(db, SchemaGrantStatements(r, schema));
            next.Some? ==> Usable(base, r, [schema]) && Extends(next.value, base, r, on + {schema}, on + {schema}, of)
  {
    var ps := GrantPrivileges(r.schemaGrants[schema]);
    var a := if |ps.schema| > 0 then [GrantSchema(ps.schema, schema, r.name)] else [];
    var b := if |ps.table| > 0 then [GrantTables(ps.table, schema, r.name)] else [];
    hide Exec, Extends, GrantPrivileges;
    RunConcat(db, a, b);
    RunOne(db, a);
    GrantSchemaPart(db, base, r, schema, on, on, of);
    if Run(db, a).Some? {
      var next := Run(db, a).value;
      RunOne(next, b);
      GrantTablesPart(next, base, r, schema, on + {schema}, on, of);
    }
  }

  lemma GrantSchemaPart(db: Db, base: Db, r: Role, schema: string, on: set<string>, onTables: set<string>, of: set<string>)
    requires schema in r.schemaGrants && Extends(db, base, r, on, onTables, of)
    ensures var ps := GrantPrivileges(r.schemaGrants[schema]).schema;
            if |ps| == 0 then Extends(db, base, r, on + {schema}, onTables, of)
            else var next := Exec(db, GrantSchema(ps, schema, r.name));
              next.Some? ==> schema in base.schemas && ValidList(ps) && Extends(next.value, base, r, on + {schema}, onTables, of)
  {
    hide GrantPrivileges;
  }

  lemma GrantTablesPart(db: Db, base: Db, r: Role, schema: string, on: set<string>, onTables: set<string>, of: set<string>)
    requires schema in r.schemaGrants && Extends(db, base, r, on, onTables, of)
    ensures var ps := GrantPrivileges(r.schemaGrants[schema]).table;
            if |ps| == 0 then Extends(db, base, r, on, onTables + {schema}, of)
            else var next := Exec(db, GrantTables(ps, schema, r.name));
              next.Some? ==> schema in base.schemas && ValidList(ps) && Extends(next.value, base, r, on, onTables + {schema}, of)
  {
    hide GrantPrivileges;
  }

  lemma RunOne(db: Db, statements: seq<Statement>)
    requires |statements| <= 1
    ensures Run(db, statements) == if statements == [] then Some(db) else Exec(db, statements[0])
  {
    if statements != [] { assert Run(db, statements[..0]) == Some(db); }
  }

  lemma RevokeOneSchema(db: Db, base: Db, r: Role, schema: string, on: set<string>, of: set<string>)
    requires schema in r.schemaGrants && Extends(db, base, r, on, on, of) && r.name !in base.roles && WellFormed(base)
    requires Usable(base, r, [schema])
    ensures var next := Run(db, SchemaRevokeStatements(r, schema));
            next.Some? && Extends(next.value, base, r, on - {schema}, on - {schema}, of)
  {
    var ps := GrantPrivileges(r.schemaGrants[schema]);
    var a := if |ps.table| > 0 then [RevokeTables(ps.table, schema, r.name)] else [];
    var b := if |ps.schema| > 0 then [RevokeSchema(ps.schema, schema, r.name)] else [];
    assert schema in [schema];
    assert (|ps.schema| > 0 || |ps.table| > 0 ==> schema in base.schemas) && ValidList(ps.schema) && ValidList(ps.table);
    hide Exec, Extends, Usable, WellFormed, GrantPrivileges;
    RunConcat(db, a, b);
    RunOne(db, a);
    RevokeTablesPart(db, base, r, schema, on, on, of);
    var next := Run(db, a).value;
    RunOne(next, b);
    RevokeSchemaPart(next, base, r, schema, on, on - {schema}, of);
  }

  lemma RevokeTablesPart(db: Db, base: Db, r: Role, schema: string, on: set<string>, onTables: set<string>, of: set<string>)
    requires schema in r.schemaGrants && Extends(db, base, r, on, onTables, of) && r.name !in base.roles && WellFormed(base)
    ensures var ps := GrantPrivileges(r.schemaGrants[schema]).table;
            if |ps| == 0 then Extends(db, base, r, on, onTables - {schema}, of)
            else schema in base.schemas && ValidList(ps) ==>
              var next := Exec(db, RevokeTables(ps, schema, r.name));
              next.Some? && Extends(next.value, base, r, on, onTables - {schema}, of)
  {
    hide GrantPrivileges;
  }

  lemma RevokeSchemaPart(db: Db, base: Db, r: Role, schema: string, on: set<string>, onTables: set<string>, of: set<string>)
    requires schema in r.schemaGrants && Extends(db, base, r, on, onTables, of) && r.name !in base.roles && WellFormed(base)
    ensures var ps := GrantPrivileges(r.schemaGrants[schema]).schema;
            if |ps| == 0 then Extends(db, base, r, on - {schema}, onTables, of)
            else schema in base.schemas && ValidList(ps) ==>
              var next := Exec(db, RevokeSchema(ps, schema, r.name));
              next.Some? && Extends(next.value, base, r, on - {schema}, onTables, of)
  {
    hide GrantPrivileges;
  }

  lemma {:induction false} GrantSchemasExtends(db: Db, base: Db, r: Role, order: seq<string>, of: set<string>)
    requires forall s :: s in order ==> s in r.schemaGrants
    requires Extends(db, base, r, {}, {}, of)
    ensures var next := Run(db, GrantSchemas(r, order));
            next.Some? ==> Usable(base, r, order) && Extends(next.value, base, r, Elements(order), Elements(order), of)
  {
    if order == [] { return; }
    var init, last := order[..|order| - 1], order[|order| - 1];
    assert order == init + [last] && Elements(order) == Elements(init) + {last};
    GrantSchemasExtends(db, base, r, init, of);
    RunConcat(db, GrantSchemas(r, init), SchemaGrantStatements(r, last));
    if Run(db, GrantSchemas(r, init)).Some? {
      GrantOneSchema(Run(db, GrantSchemas(r, init)).value, base, r, last, Elements(init), of);
      assert last in [last];
    }
  }

  lemma {:induction false} RevokeSchemasExtends(db: Db, base: Db, r: Role, order: seq<string>, on: set<string>, of: set<string>)
    requires forall s :: s in order ==> s in r.schemaGrants
    requires Extends(db, base, r, on, on, of) && r.name !in base.roles && WellFormed(base) && Usable(base, r, order)
    ensures var next := Run(db, RevokeSchemas(r, order));
            next.Some? && Extends(next.value, base, r, on - Elements(order), on - Elements(order), of)
  {
    if order == [] {
      assert on - Elements(order) == on;
      return;
    }
    var init, last := order[..|order| - 1], order[|order| - 1];
    assert order == init + [last] && on - Elements(order) == on - Elements(init) - {last};
    RevokeSchemasExtends(db, base, r, init, on, of);
    RunConcat(db, RevokeSchemas(r, init), SchemaRevokeStatements(r, last));
    assert Usable(base, r, [last]);
    RevokeOneSchema(Run(db, RevokeSchemas(r, init)).value, base, r, last, on - Elements(init), of);
  }

  lemma {:induction false} GrantMembersExtends(db: Db, base: Db, r: Role, members: seq<string>)
    requires Extends(db, base, r, {}, {}, {})
    ensures var next := Run(db, GrantMembers(r, members));
            next.Some? ==> Joinable(base, r, members) && Extends(next.value, base, r, {}, {}, Elements(members))
  {
    if members == [] { return; }
    var init, last := members[..|members| - 1], members[|members| - 1];
    assert members == init + [last] && Elements(members) == Elements(init) + {last};
    assert GrantMembers(r, members)[..|init|] == GrantMembers(r, init);
    GrantMembersExtends(db, base, r, init);
  }

  lemma RevokeMembersStep(r: Role, members: seq<string>, member: string)
    ensures RevokeMembers(r, members + [member]) == RevokeMembers(r, members) + [RevokeRole(member, r.name)]
    ensures RevokeMembers(r, []) == []
    ensures Elements(members + [member]) == Elements(members) + {member} && Elements([]) == {}
  {}

  lemma RevocableStep(base: Db, r: Role, members: seq<string>, member: string)
    ensures Revocable(base, r, members + [member])
            <==> Revocable(base, r, members) && (member in base.roles || member == r.name)
  {
    assert forall m :: m in members + [member] <==> m in members || m == member;
  }

  lemma RevokeOneMember(db: Db, base: Db, r: Role, member: string, of: set<string>)
    requires Extends(db, base, r, {}, {}, of) && r.name !in base.roles && WellFormed(base)
    ensures var next := Exec(db, RevokeRole(member, r.name));
            && (next.Some? <==> member in base.roles || member == r.name)
            && (next.Some? ==> Extends(next.value, base, r, {}, {}, of - {member}))
  {}

  lemma {:induction false} RevokeMembersExtends(db: Db, base: Db, r: Role, members: seq<string>, of: set<string>)
    requires Extends(db, base, r, {}, {}, of) && r.name !in base.roles && WellFormed(base)
    ensures var next := Run(db, RevokeMembers(r, members));
            && (next.Some? <==> Revocable(base, r, members))
            && (next.Some? ==> Extends(next.value, base, r, {}, {}, of - Elements(members)))
  {
    hide *;
    if members == [] {
      RevokeMembersStep(r, [], "");
      NothingToRevoke(base, r);
      RunOne(db, []);
      assert of - {} == of;
      return;
    }
    var init, last := members[..|members| - 1], members[|members| - 1];
    assert members == init + [last];
    RevokeMembersStep(r, init, last);
    RevocableStep(base, r, init, last);
    assert of - (Elements(init) + {last}) == of - Elements(init) - {last};
    RevokeMembersExtends(db, base, r, init, of);
    RunConcat(db, RevokeMembers(r, init), [RevokeRole(last, r.name)]);
    if Run(db, RevokeMembers(r, init)).Some? {
      var next := Run(db, RevokeMembers(r, init)).value;
      RunOne(next, [RevokeRole(last, r.name)]);
      RevokeOneMember(next, base, r, last, of - Elements(init));
    }
  }

  lemma NothingToRevoke(base: Db, r: Role)
    ensures Revocable(base, r, []) && Usable(base, r, [])
  {}

  /** A successful create leaves the catalog as it was, plus the role with its declared grants. */
  lemma CreateExtends(base: Db, r: Role, password: string, order: seq<string>)
    requires WellFormed(base) && r.name !in base.roles
    requires forall s :: s in order ==> s in r.schemaGrants
    ensures var after := Run(base, CreateStatements(r, password, order));
            after.Some? ==>
              && r.name !in SPECIAL_ROLES && Usable(base, r, order) && Joinable(base, r, r.memberOf)
              && Extends(after.value, base, r, Elements(order), Elements(order), Elements(r.memberOf))
  {
    var head := [EnsureRole(r.name), AlterRole(r.name, AttributesOf(r, password))];
    RunConcat(base, head + GrantMembers(r, r.memberOf), GrantSchemas(r, order));
    RunConcat(base, head, GrantMembers(r, r.memberOf));
    if r.name in SPECIAL_ROLES {
      HeadFails(base, r, password);
      return;
    }
    HeadExtends(base, r, password);
    hide Extends, Exec, WellFormed;
    var afterHead := Run(base, head).value;
    GrantMembersExtends(afterHead, base, r, r.memberOf);
    var joined := Run(afterHead, GrantMembers(r, r.memberOf));
    if joined.Some? { GrantSchemasExtends(joined.value, base, r, order, Elements(r.memberOf)); }
  }

  /** The guard fails for a name that no role can have. */
  lemma HeadFails(base: Db, r: Role, password: string)
    requires WellFormed(base) && r.name in SPECIAL_ROLES
    ensures Run(base, [EnsureRole(r.name), AlterRole(r.name, AttributesOf(r, password))]).None?
  {
    var head := [EnsureRole(r.name), AlterRole(r.name, AttributesOf(r, password))];
    assert head[..1] == [EnsureRole(r.name)];
    RunOne(base, head[..1]);
  }

  /** For any other free name, the guard and the ALTER ROLE succeed and add the bare role. */
  lemma HeadExtends(base: Db, r: Role, password: string)
    requires WellFormed(base) && r.name !in base.roles && r.name !in SPECIAL_ROLES
    ensures var after := Run(base, [EnsureRole(r.name), AlterRole(r.name, AttributesOf(r, password))]);
            after.Some? && Extends(after.value, base, r, {}, {}, {})
  {
    var head := [EnsureRole(r.name), AlterRole(r.name, AttributesOf(r, password))];
    var afterHead := base.(roles := base.roles + {r.name}, attributes := base.attributes[r.name := AttributesOf(r, password)]);
    assert head[..1] == [EnsureRole(r.name)];
    RunOne(base, head[..1]);
    var created := base.(roles := base.roles + {r.name}, attributes := base.attributes[r.name := DEFAULT_ATTRIBUTES]);
    assert Run(base, head[..1]) == Some(created);
    assert created.attributes[r.name := AttributesOf(r, password)] == afterHead.attributes;
    assert Run(base, head) == Exec(created, head[1]) == Some(afterHead);
    assert afterHead.attributes - {r.name} == base.attributes;
    assert Extends(afterHead, base, r, {}, {}, {});
  }

  /** When DROP ROLE runs nothing depends on the role, and dropping it restores the catalog. */
  lemma DropRestores(db: Db, base: Db, r: Role)
    requires WellFormed(base) && r.name !in base.roles && r.name !in SPECIAL_ROLES && Extends(db, base, r, {}, {}, {})
    ensures NothingGranted(db, r.name) && Exec(db, DropRole(r.name)) == Some(base)
  {
    assert db.members == base.members;
    assert db.schemaGrants == base.schemaGrants && db.tableGrants == base.tableGrants;
    assert (set m | m in db.members && m.0 != r.name && m.1 != r.name) == base.members;
    assert db.roles - {r.name} == base.roles;
  }

  /** From any catalog that extends the base by the role and declared grants, the delete
      statements lead back to the base, if the declaration names nothing that is missing. */
  lemma DeleteLeadsBack(db: Db, base: Db, r: Role, order: seq<string>)
    requires WellFormed(base) && r.name !in base.roles && r.name !in SPECIAL_ROLES && Enumerates(order, r)
    requires Extends(db, base, r, Elements(order), Elements(order), Elements(r.memberOf))
    requires Usable(base, r, order) && Revocable(base, r, r.memberOf)
    ensures var beforeDrop := Run(db, RevokeSchemas(r, order) + RevokeMembers(r, r.memberOf));
            && beforeDrop.Some? && NothingGranted(beforeDrop.value, r.name)
            && Run(db, DeleteStatements(r, order)) == Some(base)
  {
    assert Elements(order) - Elements(order) == {} && Elements(r.memberOf) - Elements(r.memberOf) == {};
    hide Extends, Exec, Usable, WellFormed, NothingGranted, Revocable;
    RevokeSchemasExtends(db, base, r, order, Elements(order), Elements(r.memberOf));
    var revoked := Run(db, RevokeSchemas(r, order)).value;
    RevokeMembersExtends(revoked, base, r, r.memberOf, Elements(r.memberOf));
    RunConcat(db, RevokeSchemas(r, order), RevokeMembers(r, r.memberOf));
    RunConcat(db, RevokeSchemas(r, order) + RevokeMembers(r, r.memberOf), [DropRole(r.name)]);
    var bare := Run(revoked, RevokeMembers(r, r.memberOf)).value;
    DropRestores(bare, base, r);
    RunOne(bare, [DropRole(r.name)]);
  }

  lemma SameSchemas(base: Db, r: Role, order: seq<string>, other: seq<string>)
    requires Enumerates(order, r) && Enumerates(other, r)
    ensures Elements(order) == Elements(other) && (Usable(base, r, order) <==> Usable(base, r, other))
  {
    hide GrantPrivileges;
  }

  /** Deleting a role undoes creating it, whatever the order in which either visits the grants. */
  lemma DeleteUndoesCreate(base: Db, r: Role, password: string, createOrder: seq<string>, deleteOrder: seq<string>)
    requires WellFormed(base) && r.name !in base.roles
    requires Enumerates(createOrder, r) && Enumerates(deleteOrder, r)
    requires Run(base, CreateStatements(r, password, createOrder)).Some?
    ensures var created := Run(base, CreateStatements(r, password, createOrder)).value;
            var beforeDrop := Run(created, RevokeSchemas(r, deleteOrder) + RevokeMembers(r, r.memberOf));
            && beforeDrop.Some? && NothingGranted(beforeDrop.value, r.name)
            && Run(created, DeleteStatements(r, deleteOrder)) == Some(base)
  {
    hide Extends, Usable, WellFormed, CreateStatements, DeleteStatements, NothingGranted;
    CreateExtends(base, r, password, createOrder);
    SameSchemas(base, r, createOrder, deleteOrder);
    DeleteLeadsBack(Run(base, CreateStatements(r, password, createOrder)).value, base, r, deleteOrder);
  }

  lemma {:induction false} DeleteDrops(db: Db, statements: seq<Statement>, role: string)
    requires Run(db, statements + [DropRole(role)]).Some?
    ensures role !in Run(db, statements + [DropRole(role)]).value.roles
  {
    RunConcat(db, statements, [DropRole(role)]);
    if Run(db, statements).Some? { RunOne(Run(db, statements).value, [DropRole(role)]); }
  }

  /** It does so exactly for names that were not taken: the guard that skips CREATE ROLE. */
  lemma DeleteUndoesCreateIff(base: Db, r: Role, password: string, createOrder: seq<string>, deleteOrder: seq<string>)
    requires WellFormed(base) && Enumerates(createOrder, r) && Enumerates(deleteOrder, r)
    requires Run(base, CreateStatements(r, password, createOrder)).Some?
    ensures Run(Run(base, CreateStatements(r, password, createOrder)).value, DeleteStatements(r, deleteOrder)) == Some(base)
            <==> r.name !in base.roles
  {
    var created := Run(base, CreateStatements(r, password, createOrder)).value;
    if r.name !in base.roles {
      DeleteUndoesCreate(base, r, password, createOrder, deleteOrder);
    } else if Run(created, DeleteStatements(r, deleteOrder)).Some? {
      DeleteDrops(created, RevokeSchemas(r, deleteOrder) + RevokeMembers(r, r.memberOf), r.name);
    }
  }
}
