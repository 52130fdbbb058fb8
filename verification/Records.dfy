/** Records returned by the upstream lists, and the records the cache keeps. */
module Records {
  // The role enumerations are open: a value outside the named ones can arrive.
  datatype OrganizationRole =
    | OrgRoleUnspecified
    | OrgRoleOwner
    | OrgRoleReader
    | OrgRoleTenantSystem
    | OrgRoleOther(code: int)

  datatype ProjectRole =
    | ProjectRoleUnspecified
    | ProjectRoleOwner
    | ProjectRoleMember
    | ProjectRoleOther(code: int)

  datatype Assignment = Assignment(clusterID: string, namespace: string)

  // Upstream.

  datatype APIKey = APIKey(
    secret: string,
    id: string,
    userID: string,
    internalUserID: string,
    organizationID: string,
    projectID: string,
    tenantID: string,
    organizationRole: OrganizationRole,
    projectRole: ProjectRole,
    excludedFromRateLimiting: bool)

  datatype Cluster = Cluster(id: string, name: string, registrationKey: string, tenantID: string)

  datatype Organization = Organization(id: string, title: string, isDefault: bool, tenantID: string)

  datatype OrganizationUser = OrganizationUser(
    userID: string, internalUserID: string, organizationID: string, role: OrganizationRole)

  datatype Project = Project(
    id: string,
    title: string,
    organizationID: string,
    kubernetesNamespace: string,
    assignments: seq<Assignment>,
    isDefault: bool)

  datatype ProjectUser = ProjectUser(
    userID: string, projectID: string, organizationID: string, role: ProjectRole)

  /** One complete answer of the six list calls. */
  datatype Upstream = Upstream(
    apiKeys: seq<APIKey>,
    clusters: seq<Cluster>,
    organizations: seq<Organization>,
    organizationUsers: seq<OrganizationUser>,
    projects: seq<Project>,
    projectUsers: seq<ProjectUser>)

  // Cached.

  datatype K = K(
    keyID: string,
    userID: string,
    internalUserID: string,
    organizationID: string,
    projectID: string,
    tenantID: string,
    organizationRole: OrganizationRole,
    projectRole: ProjectRole,
    excludedFromRateLimiting: bool)

  datatype C = C(id: string, name: string, tenantID: string)

  datatype O = O(id: string, title: string, tenantID: string, isDefault: bool)

  datatype OU = OU(role: OrganizationRole, organizationID: string)

  datatype P = P(
    id: string,
    title: string,
    organizationID: string,
    kubernetesNamespace: string,
    assignments: seq<Assignment>,
    isDefault: bool)

  datatype PU = PU(role: ProjectRole, project: P, organizationID: string)

  datatype U = U(id: string, internalID: string, tenantID: string)

  // From an upstream record to its key in an index and to the record kept there.

  function SecretOf(k: APIKey): string { k.secret }
  function ToK(k: APIKey): K {
    K(k.id, k.userID, k.internalUserID, k.organizationID, k.projectID, k.tenantID,
      k.organizationRole, k.projectRole, k.excludedFromRateLimiting)
  }

  function RegistrationKeyOf(c: Cluster): string { c.registrationKey }
  function ClusterTenantOf(c: Cluster): string { c.tenantID }
  function ToC(c: Cluster): C { C(c.id, c.name, c.tenantID) }

  function OrganizationIDOf(o: Organization): string { o.id }
  function ToO(o: Organization): O { O(o.id, o.title, o.tenantID, o.isDefault) }

  function OrganizationMemberOf(m: OrganizationUser): string { m.userID }
  function ToOU(m: OrganizationUser): OU { OU(m.role, m.organizationID) }

  function ProjectIDOf(p: Project): string { p.id }
  function ProjectOrganizationOf(p: Project): string { p.organizationID }
  function ToP(p: Project): P {
    P(p.id, p.title, p.organizationID, p.kubernetesNamespace, p.assignments, p.isDefault)
  }

  function ProjectMemberOf(m: ProjectUser): string { m.userID }
}
