/** The project gate and the project list in terms of what the store holds: role names, addresses
    and token versions (internal/api/authz_helpers.go). */
module AccessByName {
  import opened ProjectAccess
  import opened Text
  import opened Wrappers

  /** The role names that reach a level. */
  predicate Reaches(minimum: int, names: set<string>) {
    || (minimum == OWNER && names == {"owner"})
    || (minimum == ADMIN && names == {"owner", "admin"})
    || (minimum == DEVELOPER && names == {"owner", "admin", "developer"})
    || (minimum == VIEWER && names == {"owner", "admin", "developer", "viewer"})
  }

  function Plain(s: string): string { ToLower(TrimSpace(s)) }

  /** The first member with the address has one of the roles. */
  ghost predicate MemberWith(members: seq<Member>, address: string, names: set<string>) {
    exists i :: 0 <= i < |members| && members[i].email == address && Plain(members[i].role) in names
                && forall j :: 0 <= j < i ==> members[j].email != address
  }

  ghost predicate GrantedOneOf(grant: ProjectAccess.Result<string>, names: set<string>) {
    grant.Ok? && Plain(grant.value) in names
  }

  lemma RankByName(role: string, minimum: int, names: set<string>)
    requires Reaches(minimum, names)
    ensures RoleRank(role) >= minimum <==> Plain(role) in names
  {
    hide TrimSpace, ToLower;
  }

  lemma {:induction false} RoleOfFirstMember(members: seq<Member>, address: string, minimum: int, names: set<string>)
    requires Reaches(minimum, names)
    ensures RoleRank(RoleAmong(members, address)) >= minimum <==> MemberWith(members, address, names)
  {
    if members == [] {
      NoRole(minimum, names);
      return;
    }
    var first, rest := members[0], members[1..];
    RankByName(first.role, minimum, names);
    RoleOfFirstMember(rest, address, minimum, names);
    hide Reaches, RoleRank, Plain;
    if first.email == address {
      if Plain(first.role) in names { assert members[0].email == address; }
      if MemberWith(members, address, names) {
        var i :| 0 <= i < |members| && members[i].email == address && Plain(members[i].role) in names
                 && forall j :: 0 <= j < i ==> members[j].email != address;
        FirstIsFirst(members, address, i);
      }
    } else {
      FurtherMember(members, address, names);
    }
  }

  lemma FirstIsFirst(members: seq<Member>, address: string, i: nat)
    requires i < |members| && members[0].email == address && forall j :: 0 <= j < i ==> members[j].email != address
    ensures i == 0
  {}

  lemma FurtherMember(members: seq<Member>, address: string, names: set<string>)
    requires members != [] && members[0].email != address
    ensures MemberWith(members, address, names) <==> MemberWith(members[1..], address, names)
  {
    var rest := members[1..];
    hide Plain;
    if MemberWith(members, address, names) {
      var i :| 0 <= i < |members| && members[i].email == address && Plain(members[i].role) in names
               && forall j :: 0 <= j < i ==> members[j].email != address;
      assert rest[i - 1] == members[i] && forall j :: 0 <= j < i - 1 ==> rest[j] == members[j + 1];
    }
    if MemberWith(rest, address, names) {
      var i :| 0 <= i < |rest| && rest[i].email == address && Plain(rest[i].role) in names
               && forall j :: 0 <= j < i ==> rest[j].email != address;
      assert members[i + 1] == rest[i];
      forall j | 0 <= j < i + 1 ensures members[j].email != address { if j > 0 { assert members[j] == rest[j - 1]; } }
    }
  }

  lemma NoRole(minimum: int, names: set<string>)
    requires Reaches(minimum, names)
    ensures RoleRank(RoleAmong([], "")) < minimum && forall address :: RoleAmong([], address) == "" && !MemberWith([], address, names)
  {
    TrimSpaceOfTrimmed("");
  }

  /** A user's token version below one counts as one. */
  ghost predicate CurrentVersion(userVersion: int, claimVersion: int) {
    (userVersion >= 1 && claimVersion == userVersion) || (userVersion < 1 && claimVersion == 1)
  }

  /** Claims are current exactly if they name a subject that the store has, at its token version. */
  lemma CurrentIff(store: Store, claims: Claims)
    ensures CurrentUser(store, claims).Current?
            <==> TrimSpace(claims.subject) != "" && store.user(claims.subject).Ok?
                 && CurrentVersion(store.user(claims.subject).value.tokenVersion, claims.tokenVersion)
    ensures CurrentUser(store, claims).Current? ==> Ok(CurrentUser(store, claims).user) == store.user(claims.subject)
  {
    hide TrimSpace;
  }

  /** Current claims are admitted at a level exactly if the first member of the project's org with
      the user's address, or the project's grant to it, has a role that reaches the level. */
  lemma GateByName(store: Store, claims: Claims, bypass: bool, ref: string, minimum: int, names: set<string>)
    requires Reaches(minimum, names) && store.project(ref).Ok?
    requires TrimSpace(claims.subject) != "" && store.user(claims.subject).Ok?
    requires CurrentVersion(store.user(claims.subject).value.tokenVersion, claims.tokenVersion)
    requires store.members(store.project(ref).value.orgID).Ok?
    ensures var project, address := store.project(ref).value, Plain(store.user(claims.subject).value.email);
            Gate(store, Some(claims), bypass, ref, minimum) == Admitted(project)
            <==> MemberWith(store.members(project.orgID).value, address, names)
                 || GrantedOneOf(store.grant(Plain(project.ref), address), names)
  {
    hide Reaches, RoleRank, MemberWith, TrimSpace, ToLower;
    CurrentIff(store, claims);
    var project, user := store.project(ref).value, store.user(claims.subject).value;
    var members := store.members(project.orgID).value;
    LevelIsRank(minimum, names);
    AdmittedIff(store, claims, bypass, ref, minimum);
    RoleOfFirstMember(members, Plain(user.email), minimum, names);
    var grant := store.grant(Plain(project.ref), Plain(user.email));
    if grant.Ok? { RankByName(grant.value, minimum, names); }
  }

  lemma LevelIsRank(minimum: int, names: set<string>)
    requires Reaches(minimum, names)
    ensures minimum >= VIEWER
  {}

  /** Everyone else is refused, each for a reason of its own. */
  lemma Refusals(store: Store, caller: Option<Claims>, bypass: bool, ref: string, minimum: int)
    ensures var gate := Gate(store, caller, bypass, ref, minimum);
            && (store.project(ref).Err? ==> gate == Refused(StoreFailed(store.project(ref).failure)))
            && (store.project(ref).Ok? && caller.None? ==>
                  gate == if bypass then Admitted(store.project(ref).value) else Refused(MissingToken))
            && (store.project(ref).Ok? && caller.Some? ==>
                  var claims := caller.value;
                  var found := store.user(claims.subject);
                  && (TrimSpace(claims.subject) == "" ==> gate == Refused(InvalidToken))
                  && (TrimSpace(claims.subject) != "" && found == Err(NotFound) ==> gate == Refused(InvalidToken))
                  && (TrimSpace(claims.subject) != "" && found.Err? && found.failure != NotFound ==>
                        gate == Refused(StoreFailed(found.failure)))
                  && (TrimSpace(claims.subject) != "" && found.Ok? && !CurrentVersion(found.value.tokenVersion, claims.tokenVersion) ==>
                        gate == Refused(StaleToken)))
  {
    hide TrimSpace, RoleRank, OrgRole, ProjectRole;
  }

  /** Current claims that are not admitted are refused as forbidden, or with the failure of the store. */
  lemma RefusalOfCurrent(store: Store, claims: Claims, bypass: bool, ref: string, minimum: int)
    requires store.project(ref).Ok? && CurrentUser(store, claims).Current?
    ensures var project, address := store.project(ref).value, Plain(store.user(claims.subject).value.email);
            var gate, members, grant :=
              Gate(store, Some(claims), bypass, ref, minimum), store.members(project.orgID), store.grant(Plain(project.ref), address);
            && (members.Err? ==> gate == Refused(StoreFailed(members.failure)))
            && (members.Ok? && gate != Admitted(project) ==>
                  gate == Refused(if grant.Err? && grant.failure != NotFound then StoreFailed(grant.failure) else Forbidden))
  {
    CurrentIff(store, claims);
    hide TrimSpace, ToLower, RoleRank, CurrentUser;
  }

  // The list

  /** Without claims the list is everything or nothing; a platform administrator's is everything. */
  lemma ListWithoutRoles(store: Store, caller: Option<Claims>, bypass: bool)
    requires store.projects.Ok?
    ensures caller.None? ==> Listing(store, caller, bypass) == Ok(if bypass then store.projects.value else [])
    ensures caller.Some? && ToLower(caller.value.role) == "admin" ==> Listing(store, caller, bypass) == store.projects
  {
    assert ToLower("admin") == "admin";
    hide FirstOrgFailure, FirstProjectFailure;
  }

  lemma {:induction false} WhereKeeps(projects: seq<Project>, keep: Project -> bool, p: Project)
    ensures p in Where(projects, keep) <==> p in projects && keep(p)
  {
    if projects != [] {
      var init, last := projects[..|projects| - 1], projects[|projects| - 1];
      assert projects == init + [last];
      WhereKeeps(init, keep, p);
    }
  }

  /** Anybody else's list has exactly the projects whose org is listed and has the address as a
      member with a role, or that grant the address a role. */
  lemma ListByName(store: Store, claims: Claims, bypass: bool, p: Project)
    requires Listing(store, Some(claims), bypass).Ok? && ToLower(claims.role) != "admin"
    requires p in store.projects.value && store.members(p.orgID).Ok?
    ensures var names, address := {"owner", "admin", "developer", "viewer"}, Plain(claims.email);
            p in Listing(store, Some(claims), bypass).value
            <==> (p.orgID in store.orgs.value && MemberWith(store.members(p.orgID).value, address, names))
                 || GrantedOneOf(store.grant(Plain(p.ref), address), names)
  {
    var names, address := {"owner", "admin", "developer", "viewer"}, Plain(claims.email);
    assert ToLower("admin") == "admin" && Reaches(VIEWER, names);
    NormalTwice(claims.email);
    hide Reaches, RoleRank, MemberWith, TrimSpace, ToLower, FirstOrgFailure, FirstProjectFailure, RoleAmong;
    RoleOfFirstMember(store.members(p.orgID).value, address, VIEWER, names);
    var grant := store.grant(Plain(p.ref), address);
    if grant.Ok? { RankByName(grant.value, VIEWER, names); }
    WhereKeeps(store.projects.value, q => Listed(store, store.orgs.value, q, address), p);
    NoRankIsBelow();
  }

  lemma NoRankIsBelow()
    ensures 0 < VIEWER
  {}
}
