/** What each index holds, field by field, in terms of positions in the raw upstream lists. */
module Contents {
  import opened Wrappers
  import opened Lists
  import opened Records
  import opened Indexes

  ghost predicate KeyCached(k: K, raw: APIKey) {
    && k.keyID == raw.id && k.userID == raw.userID && k.internalUserID == raw.internalUserID
    && k.organizationID == raw.organizationID && k.projectID == raw.projectID && k.tenantID == raw.tenantID
    && k.organizationRole == raw.organizationRole && k.projectRole == raw.projectRole
    && k.excludedFromRateLimiting == raw.excludedFromRateLimiting
  }

  ghost predicate ClusterCached(c: C, raw: Cluster) {
    c.id == raw.id && c.name == raw.name && c.tenantID == raw.tenantID
  }

  ghost predicate OrganizationCached(o: O, raw: Organization) {
    o.id == raw.id && o.title == raw.title && o.tenantID == raw.tenantID && o.isDefault == raw.isDefault
  }

  ghost predicate ProjectCached(p: P, raw: Project) {
    && p.id == raw.id && p.title == raw.title && p.organizationID == raw.organizationID
    && p.kubernetesNamespace == raw.kubernetesNamespace && p.assignments == raw.assignments
    && p.isDefault == raw.isDefault
  }

  /** A cached API key is the last listed one with its secret. */
  lemma CachedKey(up: Upstream, secret: string) returns (i: nat)
    ensures match Lookup(IndexOf(up).apiKeysBySecret, secret)
            case None => forall j | 0 <= j < |up.apiKeys| :: up.apiKeys[j].secret != secret
            case Some(k) =>
              && i < |up.apiKeys| && up.apiKeys[i].secret == secret
              && (forall j | i < j < |up.apiKeys| :: up.apiKeys[j].secret != secret)
              && KeyCached(k, up.apiKeys[i])
  {
    KeyRead(up, secret);
    i := 0;
    if LastWith(up.apiKeys, SecretOf, secret).Some? {
      i := LastWithAt(up.apiKeys, SecretOf, secret);
    }
    assert forall j | 0 <= j < |up.apiKeys| :: SecretOf(up.apiKeys[j]) == up.apiKeys[j].secret;
  }

  /** A cluster cached under a registration key is the last listed one with it. */
  lemma CachedRegistration(up: Upstream, key: string) returns (i: nat)
    ensures match Lookup(IndexOf(up).clustersByRegistrationKey, key)
            case None => forall j | 0 <= j < |up.clusters| :: up.clusters[j].registrationKey != key
            case Some(c) =>
              && i < |up.clusters| && up.clusters[i].registrationKey == key
              && (forall j | i < j < |up.clusters| :: up.clusters[j].registrationKey != key)
              && ClusterCached(c, up.clusters[i])
  {
    RegistrationRead(up, key);
    i := 0;
    if LastWith(up.clusters, RegistrationKeyOf, key).Some? {
      i := LastWithAt(up.clusters, RegistrationKeyOf, key);
    }
    assert forall j | 0 <= j < |up.clusters| :: RegistrationKeyOf(up.clusters[j]) == up.clusters[j].registrationKey;
  }

  /** A cached organization is the last listed one with its ID. */
  lemma CachedOrganization(up: Upstream, organizationID: string) returns (i: nat)
    ensures match Lookup(IndexOf(up).orgsByID, organizationID)
            case None => forall j | 0 <= j < |up.organizations| :: up.organizations[j].id != organizationID
            case Some(o) =>
              && i < |up.organizations| && up.organizations[i].id == organizationID
              && (forall j | i < j < |up.organizations| :: up.organizations[j].id != organizationID)
              && OrganizationCached(o, up.organizations[i])
  {
    OrganizationRead(up, organizationID);
    i := 0;
    if LastWith(up.organizations, OrganizationIDOf, organizationID).Some? {
      i := LastWithAt(up.organizations, OrganizationIDOf, organizationID);
    }
    assert forall j | 0 <= j < |up.organizations| :: OrganizationIDOf(up.organizations[j]) == up.organizations[j].id;
  }

  /** A cached project is the last listed one with its ID. */
  lemma CachedProject(up: Upstream, projectID: string) returns (i: nat)
    ensures match Lookup(IndexOf(up).projectsByID, projectID)
            case None => forall j | 0 <= j < |up.projects| :: up.projects[j].id != projectID
            case Some(p) =>
              && i < |up.projects| && up.projects[i].id == projectID
              && (forall j | i < j < |up.projects| :: up.projects[j].id != projectID)
              && ProjectCached(p, up.projects[i])
  {
    ProjectRead(up, projectID);
    i := 0;
    if LastWith(up.projects, ProjectIDOf, projectID).Some? {
      i := LastWithAt(up.projects, ProjectIDOf, projectID);
    }
    assert forall j | 0 <= j < |up.projects| :: ProjectIDOf(up.projects[j]) == up.projects[j].id;
  }

  /** A cached user is its first listed organization membership, with the tenant of that organization. */
  lemma CachedUser(up: Upstream, userID: string) returns (i: nat)
    requires Accepted(up)
    ensures match Lookup(IndexOf(up).usersByID, userID)
            case None => forall j | 0 <= j < |up.organizationUsers| :: up.organizationUsers[j].userID != userID
            case Some(u) =>
              && i < |up.organizationUsers| && up.organizationUsers[i].userID == userID
              && (forall j | 0 <= j < i :: up.organizationUsers[j].userID != userID)
              && u.id == userID && u.internalID == up.organizationUsers[i].internalUserID
              && TenantOf(up.organizations, up.organizationUsers[i].organizationID) == Some(u.tenantID)
  {
    UserRead(up, userID);
    i := 0;
    if FirstWith(up.organizationUsers, OrganizationMemberOf, userID).Some? {
      i := FirstWithAt(up.organizationUsers, OrganizationMemberOf, userID);
      assert OrganizationListed(up, i);
    }
    assert forall j | 0 <= j < |up.organizationUsers| ::
        OrganizationMemberOf(up.organizationUsers[j]) == up.organizationUsers[j].userID;
  }

  /** The clusters cached under a tenant are those listed with it, position by position. */
  lemma CachedClusters(up: Upstream, tenantID: string) returns (at: seq<nat>)
    ensures PositionsOf(at, up.clusters, (x: Cluster) => x.tenantID == tenantID)
    ensures |Slice(IndexOf(up).clustersByTenantID, tenantID)| == |at|
    ensures forall i | 0 <= i < |at| ::
              ClusterCached(Slice(IndexOf(up).clustersByTenantID, tenantID)[i], up.clusters[at[i]])
  {
    ClustersRead(up, tenantID);
    at := GroupAt(up.clusters, ClusterTenantOf, ToC, tenantID);
    SamePositions(at, up.clusters, (x: Cluster) => ClusterTenantOf(x) == tenantID,
                  (x: Cluster) => x.tenantID == tenantID);
  }

  /** The projects cached under an organization are those listed with it, position by position. */
  lemma CachedProjects(up: Upstream, organizationID: string) returns (at: seq<nat>)
    ensures PositionsOf(at, up.projects, (x: Project) => x.organizationID == organizationID)
    ensures |Slice(IndexOf(up).projectsByOrganizationID, organizationID)| == |at|
    ensures forall i | 0 <= i < |at| ::
              ProjectCached(Slice(IndexOf(up).projectsByOrganizationID, organizationID)[i], up.projects[at[i]])
  {
    OrganizationProjectsRead(up, organizationID);
    at := GroupAt(up.projects, ProjectOrganizationOf, ToP, organizationID);
    SamePositions(at, up.projects, (x: Project) => ProjectOrganizationOf(x) == organizationID,
                  (x: Project) => x.organizationID == organizationID);
  }

  /** The organization memberships cached under a user are those listed for it, position by position. */
  lemma CachedOrganizationMemberships(up: Upstream, userID: string) returns (at: seq<nat>)
    ensures PositionsOf(at, up.organizationUsers, (x: OrganizationUser) => x.userID == userID)
    ensures |Slice(IndexOf(up).orgsByUserID, userID)| == |at|
    ensures forall i | 0 <= i < |at| ::
              var m := Slice(IndexOf(up).orgsByUserID, userID)[i];
              m.role == up.organizationUsers[at[i]].role
              && m.organizationID == up.organizationUsers[at[i]].organizationID
  {
    OrganizationMembersRead(up, userID);
    at := GroupAt(up.organizationUsers, OrganizationMemberOf, ToOU, userID);
    SamePositions(at, up.organizationUsers, (x: OrganizationUser) => OrganizationMemberOf(x) == userID,
                  (x: OrganizationUser) => x.userID == userID);
  }

  /** So are its project memberships, each with the cached project it names. */
  lemma CachedProjectMemberships(up: Upstream, userID: string) returns (at: seq<nat>)
    requires Accepted(up)
    ensures PositionsOf(at, up.projectUsers, (x: ProjectUser) => x.userID == userID)
    ensures |Slice(IndexOf(up).projectsByUserID, userID)| == |at|
    ensures forall i | 0 <= i < |at| ::
              var m, raw := Slice(IndexOf(up).projectsByUserID, userID)[i], up.projectUsers[at[i]];
              m.role == raw.role && m.organizationID == raw.organizationID
              && Lookup(IndexOf(up).projectsByID, raw.projectID) == Some(m.project)
  {
    ProjectMembersRead(up, userID);
    at := GroupAt(up.projectUsers, ProjectMemberOf, ToPU(up.projects), userID);
    SamePositions(at, up.projectUsers, (x: ProjectUser) => ProjectMemberOf(x) == userID,
                  (x: ProjectUser) => x.userID == userID);
    forall i | 0 <= i < |at|
      ensures Lookup(IndexOf(up).projectsByID, up.projectUsers[at[i]].projectID)
           == Some(Slice(IndexOf(up).projectsByUserID, userID)[i].project)
    {
      assert ProjectListed(up, at[i]);
      ProjectRead(up, up.projectUsers[at[i]].projectID);
    }
  }
}
