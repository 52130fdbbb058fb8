/**
 A reference authorizer that knows no index: it scans the raw upstream lists for every answer. The
 indexed decision agrees with it on every accepted upstream answer.
 */
module Reference {
  import opened Wrappers
  import opened Lists
  import opened Records
  import opened Indexes
  import opened KubernetesEnvs
  import opened Decision

  /** The first organization membership of the user in the organization. */
  function FirstOrganizationMember(list: seq<OrganizationUser>, userID: string, organizationID: string)
    : Option<OrganizationUser>
  {
    if list == [] then None
    else
      var n := |list| - 1;
      var r := FirstOrganizationMember(list[..n], userID, organizationID);
      if r.Some? then r
      else if list[n].userID == userID && list[n].organizationID == organizationID then Some(list[n])
      else None
  }

  /** The first project membership of the user in the project. */
  function FirstProjectMember(list: seq<ProjectUser>, userID: string, projectID: string): Option<ProjectUser> {
    if list == [] then None
    else
      var n := |list| - 1;
      var r := FirstProjectMember(list[..n], userID, projectID);
      if r.Some? then r
      else if list[n].userID == userID && list[n].projectID == projectID then Some(list[n])
      else None
  }

  /** The last listed project with this ID. */
  function LastProject(up: Upstream, id: string): Option<Project> {
    LastWith(up.projects, ProjectIDOf, id)
  }

  /** The projects the user is a member of, by memberships recorded under `organizationID` if that is given. */
  function MemberProjects(up: Upstream, list: seq<ProjectUser>, userID: string, organizationID: Option<string>)
    : seq<Project>
  {
    if list == [] then []
    else
      var n := |list| - 1;
      var rest := MemberProjects(up, list[..n], userID, organizationID);
      var p := LastProject(up, list[n].projectID);
      if && list[n].userID == userID && p.Some?
         && (organizationID == None || organizationID == Some(list[n].organizationID))
      then rest + [p.value] else rest
  }

  function ListedProjects(up: Upstream, organizationID: string): seq<Project> {
    With(up.projects, ProjectOrganizationOf, organizationID)
  }

  /** The listed projects of every organization the user is a member of, membership by membership. */
  function ProjectsOfMember(up: Upstream, list: seq<OrganizationUser>, userID: string): seq<Project> {
    if list == [] then []
    else
      var n := |list| - 1;
      ProjectsOfMember(up, list[..n], userID)
      + (if list[n].userID == userID then ListedProjects(up, list[n].organizationID) else [])
  }

  function FirstDefaultListed(projects: seq<Project>): Option<Project> {
    if projects == [] then None
    else
      var n := |projects| - 1;
      match FirstDefaultListed(projects[..n])
      case Some(p) => Some(p)
      case None => if projects[n].isDefault then Some(projects[n]) else None
  }

  function PickListed(projects: seq<Project>): Option<Project> {
    if FirstDefaultListed(projects).Some? then FirstDefaultListed(projects)
    else if projects == [] then None
    else Some(projects[0])
  }

  function SelectListed(up: Upstream, req: Request, userID: string): Option<Project> {
    if req.projectID != "" then
      match LastProject(up, req.projectID)
      case Some(p) => if req.organizationID in {"", p.organizationID} then Some(p) else None
      case None => None
    else if req.organizationID != "" then
      if TenantOf(up.organizations, req.organizationID).None? then None
      else PickListed(MemberProjects(up, up.projectUsers, userID, Some(req.organizationID))
                      + ListedProjects(up, req.organizationID))
    else
      PickListed(MemberProjects(up, up.projectUsers, userID, None)
                 + ProjectsOfMember(up, up.organizationUsers, userID))
  }

  function ListedOrganizationRole(up: Upstream, userID: string, organizationID: string): OrganizationRole {
    match FirstOrganizationMember(up.organizationUsers, userID, organizationID)
    case Some(m) => m.role
    case None => OrgRoleUnspecified
  }

  function ListedProjectRole(up: Upstream, userID: string, projectID: string): ProjectRole {
    match FirstProjectMember(up.projectUsers, userID, projectID)
    case Some(m) => m.role
    case None => ProjectRoleUnspecified
  }

  function ListedClusters(up: Upstream, tenantID: string): seq<C> {
    Map(With(up.clusters, ClusterTenantOf, tenantID), ToC)
  }

  function TitleOf(up: Upstream, organizationID: string): string {
    match LastWith(up.organizations, OrganizationIDOf, organizationID)
    case Some(o) => o.title
    case None => ""
  }

  predicate HasScope(config: Config, role: string, scope: string) {
    role in config.roleScopes && exists i :: 0 <= i < |config.roleScopes[role]| && config.roleScopes[role][i] == scope
  }

  /** Owners and the tenant system act with the scopes of these roles, readers with those of their project role. */
  predicate Entitled(config: Config, scope: string, orgRole: OrganizationRole, projectRole: ProjectRole) {
    || (orgRole == OrgRoleOwner && HasScope(config, "organizationOwner", scope))
    || (orgRole == OrgRoleTenantSystem && HasScope(config, "tenantSystem", scope))
    || (orgRole == OrgRoleReader && projectRole == ProjectRoleOwner && HasScope(config, "projectOwner", scope))
    || (orgRole == OrgRoleReader && projectRole == ProjectRoleMember && HasScope(config, "projectMember", scope))
  }

  /** An answer that says nothing but no. */
  const NO := Response(false, None, None, None, "", "", false)

  function ReferenceKey(up: Upstream, config: Config, req: Request, k: APIKey): Response {
    match LastProject(up, k.projectID)
    case None => NO
    case Some(p) =>
      if TenantOf(up.organizations, k.organizationID).None? then NO
      else
        Response(
          Entitled(config, req.accessResource + "." + req.capability, k.organizationRole, k.projectRole),
          Some(UserMessage(k.userID, k.internalUserID)),
          Some(OrganizationMessage(k.organizationID, TitleOf(up, k.organizationID))),
          Some(ProjectMessage(k.projectID, p.title,
                              Envs(p.kubernetesNamespace, p.assignments, ListedClusters(up, k.tenantID)))),
          k.tenantID, k.id, k.excludedFromRateLimiting)
  }

  predicate StartsWith(s: string, prefix: string) {
    |prefix| <= |s| && forall i :: 0 <= i < |prefix| ==> s[i] == prefix[i]
  }

  /** No test that the project's organization exists: the user's role in it already implies that. */
  function ReferenceUser(up: Upstream, config: Config, req: Request, userID: string): Response {
    match FirstWith(up.organizationUsers, OrganizationMemberOf, userID)
    case None => NO
    case Some(m) =>
      var tenantID := match TenantOf(up.organizations, m.organizationID) { case Some(t) => t case None => "" };
      if StartsWith(req.accessResource, "api.organizations") then
        Response(
          true,
          Some(UserMessage(userID, m.internalUserID)),
          Some(OrganizationMessage("", "")),
          Some(ProjectMessage("", "", [])),
          tenantID, "", false)
      else
        match SelectListed(up, req, userID)
        case None => NO
        case Some(p) =>
          var orgRole := ListedOrganizationRole(up, userID, p.organizationID);
          if orgRole == OrgRoleUnspecified then NO
          else
            Response(
              Entitled(config, req.accessResource + "." + req.capability,
                       orgRole, ListedProjectRole(up, userID, p.id)),
              Some(UserMessage(userID, m.internalUserID)),
              Some(OrganizationMessage(p.organizationID, TitleOf(up, p.organizationID))),
              Some(ProjectMessage(p.id, p.title,
                                  Envs(p.kubernetesNamespace, p.assignments, ListedClusters(up, tenantID)))),
              tenantID, "", false)
  }

  function ReferenceDecision(up: Upstream, config: Config, req: Request, answer: Introspection)
    : Result<Response, StatusError>
  {
    if req.token == "" then Err(InvalidArgument("token is required"))
    else if req.accessResource == "" then Err(InvalidArgument("access resource is required"))
    else if req.capability == "" then Err(InvalidArgument("capability is required"))
    else
      match LastWith(up.apiKeys, SecretOf, req.token)
      case Some(k) => Ok(ReferenceKey(up, config, req, k))
      case None =>
        match answer
        case IntrospectionFailed(message) => Err(Internal(message))
        case Inactive => Ok(NO)
        case Active(email) => Ok(ReferenceUser(up, config, req, config.normalize(email)))
  }

  lemma EntitledIsPermitted(config: Config, scope: string, orgRole: OrganizationRole, projectRole: ProjectRole)
    ensures Entitled(config, scope, orgRole, projectRole) == Permitted(config, scope, orgRole, projectRole)
  {
  }

  lemma NotProjectScopedMeans(req: Request)
    ensures NotProjectScoped(req) == StartsWith(req.accessResource, "api.organizations")
  {
    var prefix := "api.organizations";
    if StartsWith(req.accessResource, prefix) {
      assert req.accessResource[..|prefix|] == prefix;
    }
  }

  // The indexed reads, one by one, against the scans.

  lemma {:induction false} OrganizationRoleScan(list: seq<OrganizationUser>, userID: string, organizationID: string)
    ensures FirstWith(Group(list, OrganizationMemberOf, ToOU, userID), RoleOrganizationOf, organizationID)
         == match FirstOrganizationMember(list, userID, organizationID) {
              case Some(m) => Some(ToOU(m)) case None => None
            }
  {
    if list != [] {
      var n := |list| - 1;
      OrganizationRoleScan(list[..n], userID, organizationID);
      assert list == list[..n] + [list[n]];
      GroupSnoc(list[..n], list[n], OrganizationMemberOf, ToOU, userID);
      FirstSnoc(Group(list[..n], OrganizationMemberOf, ToOU, userID), ToOU(list[n]),
                RoleOrganizationOf, organizationID);
    }
  }

  /** Every membership of the list names a listed project. */
  ghost predicate Resolve(up: Upstream, list: seq<ProjectUser>) {
    forall m | m in list :: ProjectNamed(up.projects, m.projectID).Some?
  }

  lemma AllResolve(up: Upstream)
    requires ProjectUsersResolve(up)
    ensures Resolve(up, up.projectUsers)
  {
    forall m | m in up.projectUsers ensures ProjectNamed(up.projects, m.projectID).Some? {
      var i :| 0 <= i < |up.projectUsers| && up.projectUsers[i] == m;
      assert ProjectListed(up, i);
    }
  }

  /** The cached memberships of a user with and without the last record of the list. */
  lemma LastMembership(up: Upstream, list: seq<ProjectUser>, userID: string)
    requires list != [] && Resolve(up, list)
    ensures Resolve(up, list[..|list| - 1])
    ensures var m := list[|list| - 1];
            && ProjectNamed(up.projects, m.projectID) == Some(ToPU(up.projects)(m).project)
            && ToPU(up.projects)(m).project.id == m.projectID
            && Group(list, ProjectMemberOf, ToPU(up.projects), userID)
               == Group(list[..|list| - 1], ProjectMemberOf, ToPU(up.projects), userID)
                  + (if m.userID == userID then [ToPU(up.projects)(m)] else [])
  {
    var n := |list| - 1;
    assert list == list[..n] + [list[n]];
    GroupSnoc(list[..n], list[n], ProjectMemberOf, ToPU(up.projects), userID);
    assert list[n] in list;
  }

  /** The member projects, as they are cached, with and without the last record of the list. */
  lemma MembersSnoc(up: Upstream, list: seq<ProjectUser>, userID: string, organizationID: Option<string>)
    requires list != [] && Resolve(up, list)
    ensures var m := list[|list| - 1];
            Map(MemberProjects(up, list, userID, organizationID), ToP)
            == Map(MemberProjects(up, list[..|list| - 1], userID, organizationID), ToP)
               + (if m.userID == userID && (organizationID == None || organizationID == Some(m.organizationID))
                  then [ToPU(up.projects)(m).project] else [])
  {
    var n := |list| - 1;
    var p := LastProject(up, list[n].projectID);
    assert list[n] in list;
    if p.Some? {
      MapSnoc(MemberProjects(up, list[..n], userID, organizationID), p.value, ToP);
    }
  }

  lemma {:induction false} ProjectRoleScan(up: Upstream, list: seq<ProjectUser>, userID: string, projectID: string)
    requires Resolve(up, list)
    ensures FirstWith(Group(list, ProjectMemberOf, ToPU(up.projects), userID), MembershipProjectIDOf, projectID)
         == Scanned(FirstProjectMember(list, userID, projectID), ToPU(up.projects))
  {
    if list != [] {
      var n := |list| - 1;
      LastMembership(up, list, userID);
      ProjectRoleScan(up, list[..n], userID, projectID);
      FirstSnoc(Group(list[..n], ProjectMemberOf, ToPU(up.projects), userID), ToPU(up.projects)(list[n]),
                MembershipProjectIDOf, projectID);
    }
  }

  lemma {:induction false} MemberProjectsIn(
    up: Upstream, list: seq<ProjectUser>, userID: string, organizationID: string)
    requires Resolve(up, list)
    ensures Group(Group(list, ProjectMemberOf, ToPU(up.projects), userID),
                  MembershipOrganizationOf, MembershipProjectOf, organizationID)
         == Map(MemberProjects(up, list, userID, Some(organizationID)), ToP)
  {
    if list != [] {
      var n := |list| - 1;
      LastMembership(up, list, userID);
      MemberProjectsIn(up, list[..n], userID, organizationID);
      MembersSnoc(up, list, userID, Some(organizationID));
      GroupSnoc(Group(list[..n], ProjectMemberOf, ToPU(up.projects), userID), ToPU(up.projects)(list[n]),
                MembershipOrganizationOf, MembershipProjectOf, organizationID);
    }
  }

  lemma {:induction false} MemberProjectsAll(up: Upstream, list: seq<ProjectUser>, userID: string)
    requires Resolve(up, list)
    ensures Map(Group(list, ProjectMemberOf, ToPU(up.projects), userID), MembershipProjectOf)
         == Map(MemberProjects(up, list, userID, None), ToP)
  {
    if list != [] {
      var n := |list| - 1;
      LastMembership(up, list, userID);
      MemberProjectsAll(up, list[..n], userID);
      MembersSnoc(up, list, userID, None);
      MapSnoc(Group(list[..n], ProjectMemberOf, ToPU(up.projects), userID), ToPU(up.projects)(list[n]),
              MembershipProjectOf);
    }
  }

  lemma {:induction false} OrganizationProjectsScan(up: Upstream, list: seq<OrganizationUser>, userID: string)
    ensures ProjectsOfOrganizations(GroupMap(up.projects, ProjectOrganizationOf, ToP),
                                    Group(list, OrganizationMemberOf, ToOU, userID))
         == Map(ProjectsOfMember(up, list, userID), ToP)
  {
    if list != [] {
      var n := |list| - 1;
      OrganizationProjectsScan(up, list[..n], userID);
      assert list == list[..n] + [list[n]];
      GroupSnoc(list[..n], list[n], OrganizationMemberOf, ToOU, userID);
      var g := Group(list[..n], OrganizationMemberOf, ToOU, userID);
      assert (g + [ToOU(list[n])])[..|g|] == g;
      GroupMapReads(up.projects, ProjectOrganizationOf, ToP, list[n].organizationID);
      MapConcat(ProjectsOfMember(up, list[..n], userID), ListedProjects(up, list[n].organizationID), ToP);
    }
  }

  lemma CandidatesInAgree(up: Upstream, userID: string, organizationID: string)
    requires Accepted(up)
    ensures CandidatesIn(IndexOf(up), organizationID, Slice(IndexOf(up).projectsByUserID, userID))
         == Map(MemberProjects(up, up.projectUsers, userID, Some(organizationID)) + ListedProjects(up, organizationID),
                ToP)
  {
    ProjectMembersRead(up, userID);
    OrganizationProjectsRead(up, organizationID);
    AllResolve(up);
    MemberProjectsIn(up, up.projectUsers, userID, organizationID);
    MapConcat(MemberProjects(up, up.projectUsers, userID, Some(organizationID)),
              ListedProjects(up, organizationID), ToP);
  }

  lemma AllCandidatesAgree(up: Upstream, userID: string)
    requires Accepted(up)
    ensures AllCandidates(IndexOf(up), Slice(IndexOf(up).projectsByUserID, userID),
                          Slice(IndexOf(up).orgsByUserID, userID))
         == Map(MemberProjects(up, up.projectUsers, userID, None)
                + ProjectsOfMember(up, up.organizationUsers, userID), ToP)
  {
    ProjectMembersRead(up, userID);
    OrganizationMembersRead(up, userID);
    AllResolve(up);
    MemberProjectsAll(up, up.projectUsers, userID);
    OrganizationProjectsScan(up, up.organizationUsers, userID);
    MapConcat(MemberProjects(up, up.projectUsers, userID, None),
              ProjectsOfMember(up, up.organizationUsers, userID), ToP);
  }

  /** The `j`th membership names this project, the last listed with the ID. */
  ghost predicate Names(up: Upstream, list: seq<ProjectUser>, j: nat, p: Project) {
    j < |list| && LastProject(up, list[j].projectID) == Some(p)
  }

  lemma LastResolves(up: Upstream, list: seq<ProjectUser>)
    requires list != [] && Resolve(up, list)
    ensures var before, m := list[..|list| - 1], list[|list| - 1];
            list == before + [m] && Resolve(up, before) && LastProject(up, m.projectID).Some?
  {
    assert list[|list| - 1] in list;
  }

  ghost predicate Counts(m: ProjectUser, userID: string, organizationID: Option<string>) {
    m.userID == userID && (organizationID == None || organizationID == Some(m.organizationID))
  }

  /** These projects are named, one each, by the memberships at these positions. */
  ghost predicate NamedAt(up: Upstream, list: seq<ProjectUser>, at: seq<nat>, projects: seq<Project>) {
    |projects| == |at| && forall i | 0 <= i < |at| :: Names(up, list, at[i], projects[i])
  }

  lemma NextNamed(up: Upstream, before: seq<ProjectUser>, m: ProjectUser, at: seq<nat>, projects: seq<Project>)
    requires NamedAt(up, before, at, projects)
    ensures NamedAt(up, before + [m], at, projects)
    ensures LastProject(up, m.projectID).Some? ==>
              NamedAt(up, before + [m], at + [|before|], projects + [LastProject(up, m.projectID).value])
  {
    forall i | 0 <= i < |at| ensures Names(up, before + [m], at[i], projects[i]) {
      assert Names(up, before, at[i], projects[i]);
    }
  }

  lemma NextMember(
    up: Upstream, before: seq<ProjectUser>, m: ProjectUser, userID: string, organizationID: Option<string>)
    requires LastProject(up, m.projectID).Some?
    ensures MemberProjects(up, before + [m], userID, organizationID)
         == MemberProjects(up, before, userID, organizationID)
            + (if Counts(m, userID, organizationID) then [LastProject(up, m.projectID).value] else [])
  {
    assert (before + [m])[..|before|] == before;
  }

  /** The positions of the memberships that count, and the projects they name. */
  ghost predicate InOrder(
    up: Upstream, list: seq<ProjectUser>, userID: string, organizationID: Option<string>, at: seq<nat>)
  {
    && PositionsOf(at, list, (m: ProjectUser) => Counts(m, userID, organizationID))
    && NamedAt(up, list, at, MemberProjects(up, list, userID, organizationID))
  }

  lemma NextInOrder(
    up: Upstream, before: seq<ProjectUser>, m: ProjectUser, userID: string, organizationID: Option<string>,
    at: seq<nat>)
    requires InOrder(up, before, userID, organizationID, at) && LastProject(up, m.projectID).Some?
    ensures InOrder(up, before + [m], userID, organizationID,
                    if Counts(m, userID, organizationID) then at + [|before|] else at)
  {
    NextPosition(at, before, m, (m: ProjectUser) => Counts(m, userID, organizationID));
    NextNamed(up, before, m, at, MemberProjects(up, before, userID, organizationID));
    NextMember(up, before, m, userID, organizationID);
  }

  /** Member projects are those named by the memberships that count, in the order of the list. */
  lemma {:induction false} MembersInOrder(
    up: Upstream, list: seq<ProjectUser>, userID: string, organizationID: Option<string>) returns (at: seq<nat>)
    requires Resolve(up, list)
    ensures InOrder(up, list, userID, organizationID, at)
  {
    if list == [] {
      at := [];
    } else {
      var before, m := list[..|list| - 1], list[|list| - 1];
      LastResolves(up, list);
      at := MembersInOrder(up, before, userID, organizationID);
      NextInOrder(up, before, m, userID, organizationID, at);
      at := if Counts(m, userID, organizationID) then at + [|before|] else at;
    }
  }

  /** The projects of a user's organizations come membership by membership, in the order of the list. */
  lemma {:induction false} OrganizationsInOrder(
    up: Upstream, before: seq<OrganizationUser>, m: OrganizationUser, after: seq<OrganizationUser>, userID: string)
    ensures ProjectsOfMember(up, before + [m] + after, userID)
         == ProjectsOfMember(up, before, userID)
            + (if m.userID == userID then ListedProjects(up, m.organizationID) else [])
            + ProjectsOfMember(up, after, userID)
  {
    if after == [] {
      assert before + [m] + after == before + [m];
      assert (before + [m])[..|before|] == before;
    } else {
      var n := |after| - 1;
      ConcatSnoc(before + [m], after);
      assert (before + [m] + after)[..|before| + 1 + n] == before + [m] + after[..n];
      OrganizationsInOrder(up, before, m, after[..n], userID);
      Associative(ProjectsOfMember(up, before, userID)
                  + (if m.userID == userID then ListedProjects(up, m.organizationID) else []),
                  ProjectsOfMember(up, after[..n], userID),
                  if after[n].userID == userID then ListedProjects(up, after[n].organizationID) else []);
    }
  }

  lemma {:induction false} FirstDefaultAgrees(projects: seq<Project>)
    ensures FirstDefault(Map(projects, ToP)) == Scanned(FirstDefaultListed(projects), ToP)
  {
    if projects != [] {
      var n := |projects| - 1;
      FirstDefaultAgrees(projects[..n]);
      assert projects == projects[..n] + [projects[n]];
      MapSnoc(projects[..n], projects[n], ToP);
      assert Map(projects, ToP)[..n] == Map(projects[..n], ToP);
    }
  }

  /** Picking among cached projects is picking among the listed ones. */
  lemma PickAgrees(projects: seq<Project>)
    ensures PickProject(Map(projects, ToP)) == Scanned(PickListed(projects), ToP)
  {
    FirstDefaultAgrees(projects);
  }

  lemma SelectionAgrees(up: Upstream, req: Request, userID: string)
    requires Accepted(up)
    ensures SelectProject(IndexOf(up), req.organizationID, req.projectID,
                          Slice(IndexOf(up).projectsByUserID, userID), Slice(IndexOf(up).orgsByUserID, userID))
         == Scanned(SelectListed(up, req, userID), ToP)
  {
    if req.projectID != "" {
      ProjectRead(up, req.projectID);
    } else if req.organizationID != "" {
      OrganizationRead(up, req.organizationID);
      CandidatesInAgree(up, userID, req.organizationID);
      PickAgrees(MemberProjects(up, up.projectUsers, userID, Some(req.organizationID))
                 + ListedProjects(up, req.organizationID));
    } else {
      AllCandidatesAgree(up, userID);
      PickAgrees(MemberProjects(up, up.projectUsers, userID, None)
                 + ProjectsOfMember(up, up.organizationUsers, userID));
    }
  }

  lemma RolesAgree(up: Upstream, userID: string, p: Project)
    requires Accepted(up)
    ensures OrganizationRoleIn(Slice(IndexOf(up).orgsByUserID, userID), p.organizationID)
         == ListedOrganizationRole(up, userID, p.organizationID)
    ensures ProjectRoleOn(Slice(IndexOf(up).projectsByUserID, userID), p.id)
         == ListedProjectRole(up, userID, p.id)
  {
    OrganizationMembersRead(up, userID);
    OrganizationRoleScan(up.organizationUsers, userID, p.organizationID);
    ProjectMembersRead(up, userID);
    AllResolve(up);
    ProjectRoleScan(up, up.projectUsers, userID, p.id);
  }

  lemma {:induction false} FirstMemberListed(list: seq<OrganizationUser>, userID: string, organizationID: string)
    returns (i: nat)
    requires FirstOrganizationMember(list, userID, organizationID).Some?
    ensures i < |list| && list[i].userID == userID && list[i].organizationID == organizationID
  {
    var n := |list| - 1;
    if FirstOrganizationMember(list[..n], userID, organizationID).Some? {
      i := FirstMemberListed(list[..n], userID, organizationID);
    } else {
      i := n;
    }
  }

  lemma KeyRefinement(up: Upstream, config: Config, req: Request, k: APIKey)
    ensures DecideKey(IndexOf(up), config, req, ToK(k)) == ReferenceKey(up, config, req, k)
  {
    ProjectRead(up, k.projectID);
    OrganizationRead(up, k.organizationID);
    ClustersRead(up, k.tenantID);
    EntitledIsPermitted(config, ToScope(req), k.organizationRole, k.projectRole);
  }

  /** A role in an organization is only ever listed for an organization that exists. */
  lemma RoleImpliesOrganization(up: Upstream, userID: string, organizationID: string)
    requires Accepted(up) && ListedOrganizationRole(up, userID, organizationID) != OrgRoleUnspecified
    ensures TenantOf(up.organizations, organizationID).Some?
    ensures Lookup(IndexOf(up).orgsByID, organizationID).Some?
    ensures Lookup(IndexOf(up).orgsByID, organizationID).value.title == TitleOf(up, organizationID)
  {
    OrganizationRead(up, organizationID);
    var i := FirstMemberListed(up.organizationUsers, userID, organizationID);
    assert OrganizationListed(up, i);
  }

  lemma UserRefinement(up: Upstream, config: Config, req: Request, userID: string)
    requires Accepted(up)
    ensures DecideUser(IndexOf(up), config, req, userID) == ReferenceUser(up, config, req, userID)
  {
    UserRead(up, userID);
    SelectionAgrees(up, req, userID);
    NotProjectScopedMeans(req);
    var first := FirstWith(up.organizationUsers, OrganizationMemberOf, userID);
    var selected := SelectListed(up, req, userID);
    if first.Some? && !NotProjectScoped(req) && selected.Some? {
      var p := selected.value;
      ClustersRead(up, ToU(up.organizations)(first.value).tenantID);
      RolesAgree(up, userID, p);
      if ListedOrganizationRole(up, userID, p.organizationID) != OrgRoleUnspecified {
        RoleImpliesOrganization(up, userID, p.organizationID);
        EntitledIsPermitted(config, ToScope(req), ListedOrganizationRole(up, userID, p.organizationID),
                            ListedProjectRole(up, userID, p.id));
      }
    }
  }

  /** When a user is authorized for a project-scoped resource, by the scans. */
  lemma ScopedAuthorization(up: Upstream, config: Config, req: Request, userID: string)
    requires Accepted(up) && !NotProjectScoped(req)
    ensures DecideUser(IndexOf(up), config, req, userID).authorized
       <==> && FirstWith(up.organizationUsers, OrganizationMemberOf, userID).Some?
            && SelectListed(up, req, userID).Some?
            && var p := SelectListed(up, req, userID).value;
               Permitted(config, ToScope(req), ListedOrganizationRole(up, userID, p.organizationID),
                         ListedProjectRole(up, userID, p.id))
  {
    UserRefinement(up, config, req, userID);
    NotProjectScopedMeans(req);
    var selected := SelectListed(up, req, userID);
    if selected.Some? {
      var p := selected.value;
      EntitledIsPermitted(config, ToScope(req), ListedOrganizationRole(up, userID, p.organizationID),
                          ListedProjectRole(up, userID, p.id));
    }
  }

  /** The indexed decision is the decision of the direct scans, for every request and token. */
  lemma Refinement(up: Upstream, config: Config, req: Request, answer: Introspection)
    requires Accepted(up)
    ensures Decide(IndexOf(up), config, req, answer) == ReferenceDecision(up, config, req, answer)
  {
    KeyRead(up, req.token);
    match LastWith(up.apiKeys, SecretOf, req.token)
    case Some(k) => KeyRefinement(up, config, req, k);
    case None =>
      if answer.Active? {
        UserRefinement(up, config, req, config.normalize(answer.email));
      }
  }
}
