/** The authorization decision as a function of one snapshot of the indexes. */
module Decision {
  import opened Wrappers
  import opened Lists
  import opened Records
  import opened Indexes
  import opened KubernetesEnvs

  datatype Request = Request(
    token: string,
    accessResource: string,
    capability: string,
    organizationID: string,
    projectID: string)

  /** What the token introspector answers for the token of a request. */
  datatype Introspection =
    | IntrospectionFailed(message: string)
    | Inactive
    | Active(email: string)

  datatype UserMessage = UserMessage(id: string, internalID: string)
  datatype OrganizationMessage = OrganizationMessage(id: string, title: string)
  datatype ProjectMessage = ProjectMessage(id: string, title: string, assignedKubernetesEnvs: seq<Env>)

  // A message field that is not set reads as nil in the client.
  datatype Response = Response(
    authorized: bool,
    user: Option<UserMessage>,
    organization: Option<OrganizationMessage>,
    project: Option<ProjectMessage>,
    tenantID: string,
    apiKeyID: string,
    excludedFromRateLimiting: bool)

  const DENIED := Response(false, None, None, None, "", "", false)

  datatype StatusError =
    | InvalidArgument(message: string)
    | Internal(message: string)

  /** What a server is configured with: the scopes of each role and the normalization of e-mail addresses. */
  datatype Config = Config(roleScopes: map<string, seq<string>>, normalize: string -> string)

  function ToScope(req: Request): string {
    req.accessResource + "." + req.capability
  }

  predicate NotProjectScoped(req: Request) {
    "api.organizations" <= req.accessResource
  }

  /** The role whose scopes apply to these roles, when there is one. */
  function RoleName(orgRole: OrganizationRole, projectRole: ProjectRole): Option<string> {
    match orgRole
    case OrgRoleOwner => Some("organizationOwner")
    case OrgRoleTenantSystem => Some("tenantSystem")
    case OrgRoleReader =>
      (match projectRole
       case ProjectRoleOwner => Some("projectOwner")
       case ProjectRoleMember => Some("projectMember")
       case _ => None)
    case _ => None
  }

  predicate Permitted(config: Config, scope: string, orgRole: OrganizationRole, projectRole: ProjectRole) {
    var role := RoleName(orgRole, projectRole);
    role.Some? && scope in Slice(config.roleScopes, role.value)
  }

  // Selecting a project.

  function MembershipOrganizationOf(m: PU): string { m.organizationID }
  function MembershipProjectOf(m: PU): P { m.project }
  function MembershipProjectIDOf(m: PU): string { m.project.id }
  function RoleOrganizationOf(m: OU): string { m.organizationID }

  function FirstDefault(projects: seq<P>): Option<P> {
    if projects == [] then None
    else
      var n := |projects| - 1;
      var r := FirstDefault(projects[..n]);
      if r.Some? then r else if projects[n].isDefault then Some(projects[n]) else None
  }

  function PickProject(projects: seq<P>): Option<P> {
    match FirstDefault(projects)
    case Some(p) => Some(p)
    case None => if projects == [] then None else Some(projects[0])
  }

  /** The projects of the organizations of `memberships`, organization by organization. */
  function ProjectsOfOrganizations(byOrganization: map<string, seq<P>>, memberships: seq<OU>): seq<P> {
    if memberships == [] then []
    else
      var n := |memberships| - 1;
      ProjectsOfOrganizations(byOrganization, memberships[..n])
      + Slice(byOrganization, memberships[n].organizationID)
  }

  /** The candidates of a request that names an organization. */
  function CandidatesIn(idx: Index, organizationID: string, userProjects: seq<PU>): seq<P> {
    Group(userProjects, MembershipOrganizationOf, MembershipProjectOf, organizationID)
    + Slice(idx.projectsByOrganizationID, organizationID)
  }

  /** The candidates of a request that names nothing. */
  function AllCandidates(idx: Index, userProjects: seq<PU>, userOrgs: seq<OU>): seq<P> {
    Map(userProjects, MembershipProjectOf) + ProjectsOfOrganizations(idx.projectsByOrganizationID, userOrgs)
  }

  function SelectProject(
    idx: Index, organizationID: string, projectID: string, userProjects: seq<PU>, userOrgs: seq<OU>): Option<P>
  {
    if projectID != "" then
      var p := Lookup(idx.projectsByID, projectID);
      if p.None? || (organizationID != "" && organizationID != p.value.organizationID) then None else p
    else if organizationID != "" then
      if organizationID !in idx.orgsByID then None
      else PickProject(CandidatesIn(idx, organizationID, userProjects))
    else
      PickProject(AllCandidates(idx, userProjects, userOrgs))
  }

  // Roles on the selected project.

  datatype ProjectAndRoles = ProjectAndRoles(project: P, orgRole: OrganizationRole, projectRole: ProjectRole)

  function ProjectRoleOn(userProjects: seq<PU>, projectID: string): ProjectRole {
    match FirstWith(userProjects, MembershipProjectIDOf, projectID)
    case Some(m) => m.role
    case None => ProjectRoleUnspecified
  }

  function OrganizationRoleIn(userOrgs: seq<OU>, organizationID: string): OrganizationRole {
    match FirstWith(userOrgs, RoleOrganizationOf, organizationID)
    case Some(m) => m.role
    case None => OrgRoleUnspecified
  }

  function RolesOn(p: P, userProjects: seq<PU>, userOrgs: seq<OU>): Option<ProjectAndRoles> {
    var orgRole := OrganizationRoleIn(userOrgs, p.organizationID);
    if orgRole == OrgRoleUnspecified then None
    else Some(ProjectAndRoles(p, orgRole, ProjectRoleOn(userProjects, p.id)))
  }

  function AssociatedProjectAndRoles(
    idx: Index, userID: string, organizationID: string, projectID: string): Option<ProjectAndRoles>
  {
    var userProjects, userOrgs := Slice(idx.projectsByUserID, userID), Slice(idx.orgsByUserID, userID);
    match SelectProject(idx, organizationID, projectID, userProjects, userOrgs)
    case None => None
    case Some(p) => RolesOn(p, userProjects, userOrgs)
  }

  // Responses.

  function KeyResponse(config: Config, req: Request, k: K, p: P, o: O, clusters: seq<C>): Response {
    Response(
      Permitted(config, ToScope(req), k.organizationRole, k.projectRole),
      Some(UserMessage(k.userID, k.internalUserID)),
      Some(OrganizationMessage(k.organizationID, o.title)),
      Some(ProjectMessage(k.projectID, p.title, Envs(p.kubernetesNamespace, p.assignments, clusters))),
      k.tenantID,
      k.keyID,
      k.excludedFromRateLimiting)
  }

  function UserOnlyResponse(userID: string, u: U): Response {
    Response(
      true,
      Some(UserMessage(userID, u.internalID)),
      Some(OrganizationMessage("", "")),
      Some(ProjectMessage("", "", [])),
      u.tenantID, "", false)
  }

  function UserResponse(
    config: Config, req: Request, userID: string, u: U, pr: ProjectAndRoles, o: O, clusters: seq<C>): Response
  {
    Response(
      Permitted(config, ToScope(req), pr.orgRole, pr.projectRole),
      Some(UserMessage(userID, u.internalID)),
      Some(OrganizationMessage(pr.project.organizationID, o.title)),
      Some(ProjectMessage(pr.project.id, pr.project.title,
                          Envs(pr.project.kubernetesNamespace, pr.project.assignments, clusters))),
      u.tenantID, "", false)
  }

  function MissingArgument(req: Request): Option<StatusError> {
    if req.token == "" then Some(InvalidArgument("token is required"))
    else if req.accessResource == "" then Some(InvalidArgument("access resource is required"))
    else if req.capability == "" then Some(InvalidArgument("capability is required"))
    else None
  }

  function DecideKey(idx: Index, config: Config, req: Request, k: K): Response {
    var p := Lookup(idx.projectsByID, k.projectID);
    var o := Lookup(idx.orgsByID, k.organizationID);
    if p.None? || o.None? then DENIED
    else KeyResponse(config, req, k, p.value, o.value, Slice(idx.clustersByTenantID, k.tenantID))
  }

  function DecideUser(idx: Index, config: Config, req: Request, userID: string): Response {
    var u := Lookup(idx.usersByID, userID);
    if u.None? then DENIED
    else if NotProjectScoped(req) then UserOnlyResponse(userID, u.value)
    else
      var pr := AssociatedProjectAndRoles(idx, userID, req.organizationID, req.projectID);
      if pr.None? then DENIED
      else
        var o := Lookup(idx.orgsByID, pr.value.project.organizationID);
        if o.None? then DENIED
        else UserResponse(config, req, userID, u.value, pr.value, o.value,
                          Slice(idx.clustersByTenantID, u.value.tenantID))
  }

  /** The answer to a request when all of it is read from one snapshot. */
  function Decide(idx: Index, config: Config, req: Request, answer: Introspection): Result<Response, StatusError> {
    var missing := MissingArgument(req);
    if missing.Some? then Err(missing.value)
    else
      match Lookup(idx.apiKeysBySecret, req.token)
      case Some(k) => Ok(DecideKey(idx, config, req, k))
      case None =>
        match answer
        case IntrospectionFailed(message) => Err(Internal(message))
        case Inactive => Ok(DENIED)
        case Active(email) => Ok(DecideUser(idx, config, req, config.normalize(email)))
  }
}
