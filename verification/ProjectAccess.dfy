/** Who may use and who may see a project (internal/api/authz_helpers.go). The store is one
    snapshot; its answers are functions of what it is asked. */
module ProjectAccess {
  import opened Text
  import opened Wrappers

  datatype Failure = NotFound | Unavailable(message: string)

  datatype Result<T> = Ok(value: T) | Err(failure: Failure)

  datatype Project = Project(ref: string, orgID: string)

  datatype Member = Member(email: string, role: string)

  datatype User = User(email: string, tokenVersion: int)

  datatype Claims = Claims(subject: string, email: string, role: string, tokenVersion: int)

  datatype Store = Store(
    projects: Result<seq<Project>>,
    orgs: Result<seq<string>>,
    project: string -> Result<Project>,
    members: string -> Result<seq<Member>>,
    user: string -> Result<User>,
    grant: (string, string) -> Result<string>)

  // Roles

  const VIEWER: int := 1
  const DEVELOPER: int := 2
  const ADMIN: int := 3
  const OWNER: int := 4

  /** Email addresses and role names are compared in this form. */
  function Normal(s: string): string {
    ToLower(TrimSpace(s))
  }

  function RoleRank(role: string): int {
    var name := Normal(role);
    if name == "owner" then OWNER
    else if name == "admin" then ADMIN
    else if name == "developer" then DEVELOPER
    else if name == "viewer" then VIEWER
    else 0
  }

  lemma NormalTwice(s: string)
    ensures Normal(Normal(s)) == Normal(s)
  {
    TrimSpaceTrimmed(s);
    var t := TrimSpace(s);
    assert Trimmed(ToLower(t));
    TrimSpaceOfTrimmed(ToLower(t));
    assert forall c: char :: Lower(Lower(c)) == Lower(c);
    assert ToLower(ToLower(t)) == ToLower(t);
  }

  /** The role of the first member with the address, or none. */
  function RoleAmong(members: seq<Member>, email: string): string {
    if members == [] then ""
    else if members[0].email == email then members[0].role
    else RoleAmong(members[1..], email)
  }

  function OrgRole(store: Store, orgID: string, email: string): Result<string> {
    match store.members(orgID)
    case Err(e) => Err(e)
    case Ok(members) => Ok(RoleAmong(members, Normal(email)))
  }

  method OrgRoleForEmail(store: Store, orgID: string, email: string) returns (role: Result<string>)
    ensures role == OrgRole(store, orgID, email)
  {
    var answer := store.members(orgID);
    if answer.Err? { return Err(answer.failure); }
    var members, normalizedEmail := answer.value, Normal(email);
    assert members[0..] == members;
    for i := 0 to |members|
      invariant RoleAmong(members, normalizedEmail) == RoleAmong(members[i..], normalizedEmail)
    {
      assert members[i..][1..] == members[i + 1..];
      if members[i].email == normalizedEmail { return Ok(members[i].role); }
    }
    return Ok("");
  }

  function ProjectRole(store: Store, ref: string, email: string): Result<string> {
    store.grant(Normal(ref), Normal(email))
  }

  function OrgRank(store: Store, orgID: string, email: string): int {
    var role := OrgRole(store, orgID, email);
    if role.Ok? then RoleRank(role.value) else 0
  }

  function ProjectRank(store: Store, ref: string, email: string): int {
    var role := ProjectRole(store, ref, email);
    if role.Ok? then RoleRank(role.value) else 0
  }

  // The gate of one project

  datatype Refusal = MissingToken | InvalidToken | StaleToken | Forbidden | StoreFailed(failure: Failure)

  datatype Outcome = Admitted(project: Project) | Refused(reason: Refusal)

  datatype Identity = Current(user: User) | Unknown(reason: Refusal)

  predicate TokenVersionMatches(userVersion: int, claimVersion: int) {
    (if userVersion < 1 then 1 else userVersion) == claimVersion
  }

  function CurrentUser(store: Store, claims: Claims): Identity {
    if TrimSpace(claims.subject) == "" then Unknown(InvalidToken)
    else
      match store.user(claims.subject)
      case Err(NotFound) => Unknown(InvalidToken)
      case Err(Unavailable(m)) => Unknown(StoreFailed(Unavailable(m)))
      case Ok(user) =>
        if TokenVersionMatches(user.tokenVersion, claims.tokenVersion) then Current(user) else Unknown(StaleToken)
  }

  /** requireProjectRole; without claims a request may be let through unauthenticated. */
  function Gate(store: Store, caller: Option<Claims>, bypass: bool, ref: string, minimum: int): Outcome {
    match store.project(ref)
    case Err(e) => Refused(StoreFailed(e))
    case Ok(project) =>
      match caller
      case None => if bypass then Admitted(project) else Refused(MissingToken)
      case Some(claims) =>
        match CurrentUser(store, claims)
        case Unknown(reason) => Refused(reason)
        case Current(user) =>
          match OrgRole(store, project.orgID, user.email)
          case Err(e) => Refused(StoreFailed(e))
          case Ok(role) =>
            if RoleRank(role) >= minimum then Admitted(project)
            else
              match ProjectRole(store, project.ref, user.email)
              case Ok(granted) => if RoleRank(granted) >= minimum then Admitted(project) else Refused(Forbidden)
              case Err(NotFound) => Refused(Forbidden)
              case Err(Unavailable(m)) => Refused(StoreFailed(Unavailable(m)))
  }

  /** Who is admitted at a role is admitted at every lower one. */
  lemma AdmissionIsDownwardClosed(
      store: Store, caller: Option<Claims>, bypass: bool, ref: string, minimum: int, lower: int)
    requires lower <= minimum && Gate(store, caller, bypass, ref, minimum).Admitted?
    ensures Gate(store, caller, bypass, ref, lower) == Gate(store, caller, bypass, ref, minimum)
  {}

  /** Current claims are admitted exactly if the org's members can be read and the rank in the
      org or the rank in the project reaches the required one. */
  lemma AdmittedIff(store: Store, claims: Claims, bypass: bool, ref: string, minimum: int)
    requires minimum >= VIEWER && store.project(ref).Ok? && CurrentUser(store, claims).Current?
    ensures var project, email := store.project(ref).value, CurrentUser(store, claims).user.email;
            Gate(store, Some(claims), bypass, ref, minimum) == Admitted(project)
            <==> OrgRole(store, project.orgID, email).Ok?
                 && (OrgRank(store, project.orgID, email) >= minimum || ProjectRank(store, project.ref, email) >= minimum)
  {}

  // The list of visible projects

  function FirstOrgFailure(store: Store, orgs: seq<string>, email: string): Option<Failure> {
    if orgs == [] then None
    else
      var role := OrgRole(store, orgs[0], email);
      if role.Err? then Some(role.failure) else FirstOrgFailure(store, orgs[1..], email)
  }

  predicate OrgVisible(store: Store, orgs: seq<string>, orgID: string, email: string) {
    orgID in orgs && OrgRank(store, orgID, email) >= VIEWER
  }

  predicate Listed(store: Store, orgs: seq<string>, project: Project, email: string) {
    OrgVisible(store, orgs, project.orgID, email) || ProjectRank(store, project.ref, email) >= VIEWER
  }

  function FirstProjectFailure(store: Store, orgs: seq<string>, projects: seq<Project>, email: string): Option<Failure> {
    if projects == [] then None
    else
      var role := ProjectRole(store, projects[0].ref, email);
      if !OrgVisible(store, orgs, projects[0].orgID, email) && role.Err? && role.failure != NotFound then Some(role.failure)
      else FirstProjectFailure(store, orgs, projects[1..], email)
  }

  function Where(projects: seq<Project>, keep: Project -> bool): seq<Project> {
    if projects == [] then []
    else
      var init, last := projects[..|projects| - 1], projects[|projects| - 1];
      if keep(last) then Where(init, keep) + [last] else Where(init, keep)
  }

  /** projectsVisibleToRequest. */
  function Listing(store: Store, caller: Option<Claims>, bypass: bool): Result<seq<Project>> {
    if store.projects.Err? then Err(store.projects.failure)
    else if caller.None? then Ok(if bypass then store.projects.value else [])
    else if EqualFold(caller.value.role, "admin") then Ok(store.projects.value)
    else if store.orgs.Err? then Err(store.orgs.failure)
    else
      var projects, orgs, email := store.projects.value, store.orgs.value, Normal(caller.value.email);
      if FirstOrgFailure(store, orgs, email).Some? then Err(FirstOrgFailure(store, orgs, email).value)
      else if FirstProjectFailure(store, orgs, projects, email).Some? then
        Err(FirstProjectFailure(store, orgs, projects, email).value)
      else Ok(Where(projects, p => Listed(store, orgs, p, email)))
  }

  method VisibleOrgs(store: Store, orgs: seq<string>, email: string) returns (result: Result<set<string>>)
    ensures result.Ok? <==> FirstOrgFailure(store, orgs, email).None?
    ensures result.Err? ==> Some(result.failure) == FirstOrgFailure(store, orgs, email)
    ensures result.Ok? ==> forall id :: id in result.value <==> OrgVisible(store, orgs, id, email)
  {
    var visibleOrgs: set<string> := {};
    assert orgs[0..] == orgs;
    for i := 0 to |orgs|
      invariant FirstOrgFailure(store, orgs, email) == FirstOrgFailure(store, orgs[i..], email)
      invariant forall id :: id in visibleOrgs <==> OrgVisible(store, orgs[..i], id, email)
    {
      assert orgs[i..][1..] == orgs[i + 1..] && orgs[..i + 1] == orgs[..i] + [orgs[i]];
      var role := OrgRoleForEmail(store, orgs[i], email);
      if role.Err? { return Err(role.failure); }
      if RoleRank(role.value) >= VIEWER { visibleOrgs := visibleOrgs + {orgs[i]}; }
    }
    assert orgs[..|orgs|] == orgs;
    return Ok(visibleOrgs);
  }

  method ProjectsVisibleToRequest(store: Store, caller: Option<Claims>, bypass: bool)
    returns (result: Result<seq<Project>>)
    ensures result == Listing(store, caller, bypass)
  {
    if store.projects.Err? { return Err(store.projects.failure); }
    var projects := store.projects.value;
    if caller.None? && bypass { return Ok(projects); }
    if caller.None? { return Ok([]); }
    if EqualFold(caller.value.role, "admin") { return Ok(projects); }
    var email := Normal(caller.value.email);
    if store.orgs.Err? { return Err(store.orgs.failure); }
    var orgs := store.orgs.value;
    var visibleOrgs := VisibleOrgs(store, orgs, email);
    if visibleOrgs.Err? { return Err(visibleOrgs.failure); }
    var visible: seq<Project> := [];
    ghost var keep := p => Listed(store, orgs, p, email);
    assert projects[0..] == projects;
    for i := 0 to |projects|
      invariant FirstProjectFailure(store, orgs, projects, email) == FirstProjectFailure(store, orgs, projects[i..], email)
      invariant visible == Where(projects[..i], keep)
    {
      assert projects[i..][1..] == projects[i + 1..] && projects[..i + 1][..i] == projects[..i];
      if projects[i].orgID in visibleOrgs.value {
        visible := visible + [projects[i]];
        continue;
      }
      var role := ProjectRole(store, projects[i].ref, email);
      if role.Err? {
        if role.failure == NotFound { continue; }
        return Err(role.failure);
      }
      if RoleRank(role.value) >= VIEWER { visible := visible + [projects[i]]; }
    }
    assert projects[..|projects|] == projects;
    return Ok(visible);
  }

  // The list against the gate

  /** A listed project is the one the store finds by its ref, and its org's members can be read. */
  ghost predicate Consistent(store: Store, email: string) {
    store.projects.Ok? ==>
      forall p :: p in store.projects.value ==> store.project(p.ref) == Ok(p) && OrgRole(store, p.orgID, email).Ok?
  }

  predicate GateAdmits(store: Store, claims: Claims, bypass: bool, p: Project, minimum: int) {
    Gate(store, Some(claims), bypass, p.ref, minimum) == Admitted(p)
  }

  lemma {:induction false} WhereAgrees(projects: seq<Project>, keep: Project -> bool, other: Project -> bool)
    requires forall p :: p in projects && keep(p) ==> other(p)
    ensures |Where(projects, keep)| <= |Where(projects, other)|
    ensures Where(projects, keep) == Where(projects, other) <==> forall p :: p in projects && other(p) ==> keep(p)
  {
    if projects == [] { return; }
    var init, last := projects[..|projects| - 1], projects[|projects| - 1];
    assert projects == init + [last];
    WhereAgrees(init, keep, other);
    if keep(last) { LastOut(Where(init, keep), Where(init, other), last); }
  }

  lemma LastOut<T>(a: seq<T>, b: seq<T>, x: T)
    ensures a + [x] == b + [x] <==> a == b
  {
    if a + [x] == b + [x] { assert a == (a + [x])[..|a|] && b == (b + [x])[..|b|]; }
  }

  /** The org, but not a grant of the project, admits the address as a viewer. */
  predicate OnlyByOrg(store: Store, p: Project, email: string) {
    OrgRank(store, p.orgID, email) >= VIEWER && ProjectRank(store, p.ref, email) < VIEWER
  }

  /** One project is listed exactly when the gate admits it at viewer, unless only its org
      admits it and the org is not listed. */
  lemma ListedIffAdmitted(store: Store, claims: Claims, bypass: bool, p: Project)
    requires store.orgs.Ok? && store.project(p.ref) == Ok(p)
    requires CurrentUser(store, claims).Current? && Normal(claims.email) == Normal(CurrentUser(store, claims).user.email)
    requires OrgRole(store, p.orgID, claims.email).Ok?
    ensures var email := Normal(claims.email);
            && (Listed(store, store.orgs.value, p, email) ==> GateAdmits(store, claims, bypass, p, VIEWER))
            && (GateAdmits(store, claims, bypass, p, VIEWER) && !Listed(store, store.orgs.value, p, email)
                <==> p.orgID !in store.orgs.value && OnlyByOrg(store, p, email))
  {
    NormalTwice(claims.email);
    AdmittedIff(store, claims, bypass, p.ref, VIEWER);
  }

  /** The caller's list is the gate's, in order, exactly if every project whose org alone
      admits the caller has its org listed. */
  lemma ListEqualsGateIff(store: Store, claims: Claims, bypass: bool)
    requires !EqualFold(claims.role, "admin")
    requires CurrentUser(store, claims).Current? && Normal(claims.email) == Normal(CurrentUser(store, claims).user.email)
    requires Consistent(store, claims.email) && Listing(store, Some(claims), bypass).Ok?
    ensures var email, projects, orgs := Normal(claims.email), store.projects.value, store.orgs.value;
            Listing(store, Some(claims), bypass).value == Where(projects, p => GateAdmits(store, claims, bypass, p, VIEWER))
            <==> forall p :: p in projects && OnlyByOrg(store, p, email) ==> p.orgID in orgs
  {
    var email, projects, orgs := Normal(claims.email), store.projects.value, store.orgs.value;
    forall p | p in projects
      ensures Listed(store, orgs, p, email) ==> GateAdmits(store, claims, bypass, p, VIEWER)
      ensures GateAdmits(store, claims, bypass, p, VIEWER) && !Listed(store, orgs, p, email)
              <==> p.orgID !in orgs && OnlyByOrg(store, p, email)
    {
      ListedIffAdmitted(store, claims, bypass, p);
    }
    WhereAgrees(projects, p => Listed(store, orgs, p, email), p => GateAdmits(store, claims, bypass, p, VIEWER));
  }

  /** A platform administrator's list is every project; the gate knows no such role, so the
      two agree exactly if the administrator has a role of the ordinary kind everywhere. */
  lemma AdminListEqualsGateIff(store: Store, claims: Claims, bypass: bool)
    requires EqualFold(claims.role, "admin") && store.projects.Ok?
    requires CurrentUser(store, claims).Current? && Consistent(store, CurrentUser(store, claims).user.email)
    ensures var email, projects := CurrentUser(store, claims).user.email, store.projects.value;
            Listing(store, Some(claims), bypass) == Ok(Where(projects, p => GateAdmits(store, claims, bypass, p, VIEWER)))
            <==> forall p :: p in projects ==>
                   OrgRank(store, p.orgID, email) >= VIEWER || ProjectRank(store, p.ref, email) >= VIEWER
  {
    var email, projects := CurrentUser(store, claims).user.email, store.projects.value;
    forall p | p in projects
      ensures GateAdmits(store, claims, bypass, p, VIEWER) <==>
              OrgRank(store, p.orgID, email) >= VIEWER || ProjectRank(store, p.ref, email) >= VIEWER
    {
      AdmittedIff(store, claims, bypass, p.ref, VIEWER);
    }
    WhereAgrees(projects, p => GateAdmits(store, claims, bypass, p, VIEWER), p => true);
    WhereAll(projects);
  }

  lemma {:induction false} WhereAll(projects: seq<Project>)
    ensures Where(projects, p => true) == projects
  {
    if projects != [] {
      WhereAll(projects[..|projects| - 1]);
      assert projects == projects[..|projects| - 1] + [projects[|projects| - 1]];
    }
  }
}
