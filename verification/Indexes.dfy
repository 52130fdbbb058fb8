/** What the nine hash indexes hold for a given answer of the upstream lists. */
module Indexes {
  import opened Wrappers
  import opened Lists
  import opened Records

  datatype Index = Index(
    apiKeysBySecret: map<string, K>,
    clustersByRegistrationKey: map<string, C>,
    clustersByTenantID: map<string, seq<C>>,
    orgsByID: map<string, O>,
    orgsByUserID: map<string, seq<OU>>,
    projectsByID: map<string, P>,
    projectsByOrganizationID: map<string, seq<P>>,
    projectsByUserID: map<string, seq<PU>>,
    usersByID: map<string, U>)

  const EMPTY_INDEX := Index(map[], map[], map[], map[], map[], map[], map[], map[], map[])

  const NO_PROJECT := P("", "", "", "", [], false)

  /** The project a membership record names: the last listed one with that ID. */
  function ProjectNamed(projects: seq<Project>, id: string): Option<P> {
    match LastWith(projects, ProjectIDOf, id)
    case Some(p) => Some(ToP(p))
    case None => None
  }

  function Scanned<T, V>(found: Option<T>, val: T -> V): Option<V> {
    match found
    case Some(x) => Some(val(x))
    case None => None
  }

  function ToPU(projects: seq<Project>): ProjectUser -> PU {
    (m: ProjectUser) =>
      PU(m.role,
         match ProjectNamed(projects, m.projectID) { case Some(p) => p case None => NO_PROJECT },
         m.organizationID)
  }

  /** The tenant of the organization a membership record names. */
  function TenantOf(organizations: seq<Organization>, organizationID: string): Option<string> {
    match LastWith(organizations, OrganizationIDOf, organizationID)
    case Some(o) => Some(o.tenantID)
    case None => None
  }

  function ToU(organizations: seq<Organization>): OrganizationUser -> U {
    (m: OrganizationUser) =>
      U(m.userID, m.internalUserID,
        match TenantOf(organizations, m.organizationID) { case Some(t) => t case None => "" })
  }

  function IndexOf(up: Upstream): Index {
    Index(
      LastMap(up.apiKeys, SecretOf, ToK),
      LastMap(up.clusters, RegistrationKeyOf, ToC),
      GroupMap(up.clusters, ClusterTenantOf, ToC),
      LastMap(up.organizations, OrganizationIDOf, ToO),
      GroupMap(up.organizationUsers, OrganizationMemberOf, ToOU),
      LastMap(up.projects, ProjectIDOf, ToP),
      GroupMap(up.projects, ProjectOrganizationOf, ToP),
      GroupMap(up.projectUsers, ProjectMemberOf, ToPU(up.projects)),
      FirstMap(up.organizationUsers, OrganizationMemberOf, ToU(up.organizations)))
  }

  ghost predicate ProjectListed(up: Upstream, i: nat)
    requires i < |up.projectUsers|
  {
    ProjectNamed(up.projects, up.projectUsers[i].projectID).Some?
  }

  ghost predicate OrganizationListed(up: Upstream, i: nat)
    requires i < |up.organizationUsers|
  {
    TenantOf(up.organizations, up.organizationUsers[i].organizationID).Some?
  }

  ghost predicate SameTenant(up: Upstream, i: nat, j: nat)
    requires i < |up.organizationUsers| && j < |up.organizationUsers|
  {
    TenantOf(up.organizations, up.organizationUsers[i].organizationID)
    == TenantOf(up.organizations, up.organizationUsers[j].organizationID)
  }

  /** Every project membership names a listed project. */
  ghost predicate ProjectUsersResolve(up: Upstream) {
    forall i | 0 <= i < |up.projectUsers| :: ProjectListed(up, i)
  }

  /** Every organization membership names a listed organization. */
  ghost predicate OrganizationUsersResolve(up: Upstream) {
    forall i | 0 <= i < |up.organizationUsers| :: OrganizationListed(up, i)
  }

  /** Any two organization memberships of one user are in organizations of one tenant. */
  ghost predicate OneTenantPerUser(up: Upstream) {
    forall i, j | 0 <= i < |up.organizationUsers| && 0 <= j < |up.organizationUsers| ::
      up.organizationUsers[i].userID == up.organizationUsers[j].userID ==> SameTenant(up, i, j)
  }

  /** The upstream answers that a cache update accepts. */
  ghost predicate Accepted(up: Upstream) {
    && ProjectUsersResolve(up)
    && OrganizationUsersResolve(up)
    && OneTenantPerUser(up)
  }

  // The cross-index invariant.

  ghost predicate ProjectMembershipAgrees(idx: Index, m: PU) {
    Lookup(idx.projectsByID, m.project.id) == Some(m.project)
  }

  ghost predicate OrganizationMembershipAgrees(idx: Index, userID: string, m: OU) {
    && m.organizationID in idx.orgsByID
    && userID in idx.usersByID
    && idx.orgsByID[m.organizationID].tenantID == idx.usersByID[userID].tenantID
  }

  ghost predicate OrganizationProjectAgrees(idx: Index, organizationID: string, p: P) {
    p.organizationID == organizationID && p.id in idx.projectsByID
  }

  ghost predicate ProjectsAgree(idx: Index) {
    && (forall id :: id in idx.projectsByID ==> idx.projectsByID[id].id == id)
    && (forall u, i | 0 <= i < |Slice(idx.projectsByUserID, u)| ::
          ProjectMembershipAgrees(idx, Slice(idx.projectsByUserID, u)[i]))
    && (forall o, i | 0 <= i < |Slice(idx.projectsByOrganizationID, o)| ::
          OrganizationProjectAgrees(idx, o, Slice(idx.projectsByOrganizationID, o)[i]))
  }

  ghost predicate TenantsAgree(idx: Index) {
    && (forall o :: o in idx.orgsByID ==> idx.orgsByID[o].id == o)
    && (forall u :: u in idx.usersByID ==> idx.usersByID[u].id == u)
    && idx.orgsByUserID.Keys == idx.usersByID.Keys
    && (forall u, i | 0 <= i < |Slice(idx.orgsByUserID, u)| ::
          OrganizationMembershipAgrees(idx, u, Slice(idx.orgsByUserID, u)[i]))
  }

  ghost predicate ClustersAgree(idx: Index) {
    && (forall k | k in idx.clustersByRegistrationKey ::
          var c := idx.clustersByRegistrationKey[k]; c in Slice(idx.clustersByTenantID, c.tenantID))
    && (forall t, i | 0 <= i < |Slice(idx.clustersByTenantID, t)| ::
          Slice(idx.clustersByTenantID, t)[i].tenantID == t)
  }

  ghost predicate WellFormed(idx: Index) {
    ProjectsAgree(idx) && TenantsAgree(idx) && ClustersAgree(idx)
  }

  lemma EmptyIndexWellFormed()
    ensures WellFormed(EMPTY_INDEX)
  {
  }

  // What each index holds, as a scan of the raw list it was built from.

  lemma KeyRead(up: Upstream, secret: string)
    ensures Lookup(IndexOf(up).apiKeysBySecret, secret) == Scanned(LastWith(up.apiKeys, SecretOf, secret), ToK)
  {
    LastMapReads(up.apiKeys, SecretOf, ToK, secret);
  }

  lemma RegistrationRead(up: Upstream, key: string)
    ensures Lookup(IndexOf(up).clustersByRegistrationKey, key)
         == Scanned(LastWith(up.clusters, RegistrationKeyOf, key), ToC)
  {
    LastMapReads(up.clusters, RegistrationKeyOf, ToC, key);
  }

  lemma ClustersRead(up: Upstream, tenantID: string)
    ensures Slice(IndexOf(up).clustersByTenantID, tenantID)
         == Map(With(up.clusters, ClusterTenantOf, tenantID), ToC)
  {
    GroupMapReads(up.clusters, ClusterTenantOf, ToC, tenantID);
  }

  lemma OrganizationRead(up: Upstream, organizationID: string)
    ensures Lookup(IndexOf(up).orgsByID, organizationID)
         == Scanned(LastWith(up.organizations, OrganizationIDOf, organizationID), ToO)
  {
    LastMapReads(up.organizations, OrganizationIDOf, ToO, organizationID);
  }

  lemma OrganizationMembersRead(up: Upstream, userID: string)
    ensures Slice(IndexOf(up).orgsByUserID, userID)
         == Group(up.organizationUsers, OrganizationMemberOf, ToOU, userID)
    ensures userID in IndexOf(up).orgsByUserID
       <==> FirstWith(up.organizationUsers, OrganizationMemberOf, userID).Some?
  {
    GroupMapReads(up.organizationUsers, OrganizationMemberOf, ToOU, userID);
  }

  lemma ProjectRead(up: Upstream, projectID: string)
    ensures Lookup(IndexOf(up).projectsByID, projectID) == ProjectNamed(up.projects, projectID)
  {
    LastMapReads(up.projects, ProjectIDOf, ToP, projectID);
  }

  lemma OrganizationProjectsRead(up: Upstream, organizationID: string)
    ensures Slice(IndexOf(up).projectsByOrganizationID, organizationID)
         == Map(With(up.projects, ProjectOrganizationOf, organizationID), ToP)
  {
    GroupMapReads(up.projects, ProjectOrganizationOf, ToP, organizationID);
  }

  lemma ProjectMembersRead(up: Upstream, userID: string)
    ensures Slice(IndexOf(up).projectsByUserID, userID)
         == Group(up.projectUsers, ProjectMemberOf, ToPU(up.projects), userID)
  {
    GroupMapReads(up.projectUsers, ProjectMemberOf, ToPU(up.projects), userID);
  }

  lemma UserRead(up: Upstream, userID: string)
    ensures Lookup(IndexOf(up).usersByID, userID)
         == Scanned(FirstWith(up.organizationUsers, OrganizationMemberOf, userID), ToU(up.organizations))
  {
    FirstMapReads(up.organizationUsers, OrganizationMemberOf, ToU(up.organizations), userID);
  }

  function TenantOfC(c: C): string { c.tenantID }
  function OrganizationOfP(p: P): string { p.organizationID }

  /** The slices by tenant partition the listed clusters, and the slices by organization the listed projects. */
  lemma ClustersPartition(up: Upstream, tenantID: string, c: C)
    ensures multiset(Slice(IndexOf(up).clustersByTenantID, tenantID))[c]
         == if c.tenantID == tenantID then multiset(Map(up.clusters, ToC))[c] else 0
  {
    ClustersRead(up, tenantID);
    GroupCount(up.clusters, ClusterTenantOf, ToC, TenantOfC, tenantID, c);
  }

  lemma ProjectsPartition(up: Upstream, organizationID: string, p: P)
    ensures multiset(Slice(IndexOf(up).projectsByOrganizationID, organizationID))[p]
         == if p.organizationID == organizationID then multiset(Map(up.projects, ToP))[p] else 0
  {
    OrganizationProjectsRead(up, organizationID);
    GroupCount(up.projects, ProjectOrganizationOf, ToP, OrganizationOfP, organizationID, p);
  }

  lemma ProjectMembershipOf(up: Upstream, u: string, i: nat)
    requires Accepted(up)
    requires i < |Slice(IndexOf(up).projectsByUserID, u)|
    ensures ProjectMembershipAgrees(IndexOf(up), Slice(IndexOf(up).projectsByUserID, u)[i])
  {
    GroupMapReads(up.projectUsers, ProjectMemberOf, ToPU(up.projects), u);
    var j := GroupMember(up.projectUsers, ProjectMemberOf, ToPU(up.projects), u, i);
    assert ProjectListed(up, j);
    LastMapReads(up.projects, ProjectIDOf, ToP, up.projectUsers[j].projectID);
  }

  lemma OrganizationProjectOf(up: Upstream, o: string, i: nat)
    requires i < |Slice(IndexOf(up).projectsByOrganizationID, o)|
    ensures OrganizationProjectAgrees(IndexOf(up), o, Slice(IndexOf(up).projectsByOrganizationID, o)[i])
  {
    GroupMapReads(up.projects, ProjectOrganizationOf, ToP, o);
    var j := GroupMember(up.projects, ProjectOrganizationOf, ToP, o, i);
    LastMapReads(up.projects, ProjectIDOf, ToP, up.projects[j].id);
  }

  /** The user record kept for a member, the first one listed, has the tenant of each of its organizations. */
  lemma MemberTenant(up: Upstream, j: nat)
    requires Accepted(up) && j < |up.organizationUsers|
    ensures var m := up.organizationUsers[j];
            var user := Lookup(FirstMap(up.organizationUsers, OrganizationMemberOf, ToU(up.organizations)), m.userID);
            user.Some? && TenantOf(up.organizations, m.organizationID) == Some(user.value.tenantID)
  {
    var u := up.organizationUsers[j].userID;
    assert OrganizationMemberOf(up.organizationUsers[j]) == u;
    FirstMapReads(up.organizationUsers, OrganizationMemberOf, ToU(up.organizations), u);
    var f := FirstWithAt(up.organizationUsers, OrganizationMemberOf, u);
    assert OrganizationListed(up, f) && SameTenant(up, f, j);
  }

  lemma OrganizationMembershipOf(up: Upstream, u: string, i: nat)
    requires Accepted(up)
    requires i < |Slice(IndexOf(up).orgsByUserID, u)|
    ensures OrganizationMembershipAgrees(IndexOf(up), u, Slice(IndexOf(up).orgsByUserID, u)[i])
  {
    GroupMapReads(up.organizationUsers, OrganizationMemberOf, ToOU, u);
    var j := GroupMember(up.organizationUsers, OrganizationMemberOf, ToOU, u, i);
    assert OrganizationListed(up, j);
    MemberTenant(up, j);
    LastMapReads(up.organizations, OrganizationIDOf, ToO, up.organizationUsers[j].organizationID);
  }

  /** Records indexed by their own identifier are found under it. */
  lemma IdentifiersAgree(up: Upstream)
    ensures forall o :: o in IndexOf(up).orgsByID ==> IndexOf(up).orgsByID[o].id == o
    ensures forall u :: u in IndexOf(up).usersByID ==> IndexOf(up).usersByID[u].id == u
    ensures forall p :: p in IndexOf(up).projectsByID ==> IndexOf(up).projectsByID[p].id == p
    ensures IndexOf(up).orgsByUserID.Keys == IndexOf(up).usersByID.Keys
  {
    var idx := IndexOf(up);
    forall k
      ensures k in idx.orgsByID ==> idx.orgsByID[k].id == k
      ensures k in idx.usersByID ==> idx.usersByID[k].id == k
      ensures k in idx.projectsByID ==> idx.projectsByID[k].id == k
      ensures k in idx.orgsByUserID <==> k in idx.usersByID
    {
      OrganizationRead(up, k);
      OrganizationMembersRead(up, k);
      UserRead(up, k);
      ProjectRead(up, k);
    }
  }

  lemma ProjectsAgreeOf(up: Upstream)
    requires Accepted(up)
    ensures ProjectsAgree(IndexOf(up))
  {
    var idx := IndexOf(up);
    IdentifiersAgree(up);
    forall u, i | 0 <= i < |Slice(idx.projectsByUserID, u)|
      ensures ProjectMembershipAgrees(idx, Slice(idx.projectsByUserID, u)[i])
    {
      ProjectMembershipOf(up, u, i);
    }
    forall o, i | 0 <= i < |Slice(idx.projectsByOrganizationID, o)|
      ensures OrganizationProjectAgrees(idx, o, Slice(idx.projectsByOrganizationID, o)[i])
    {
      OrganizationProjectOf(up, o, i);
    }
  }

  lemma TenantsAgreeOf(up: Upstream)
    requires Accepted(up)
    ensures TenantsAgree(IndexOf(up))
  {
    var idx := IndexOf(up);
    IdentifiersAgree(up);
    forall u, i | 0 <= i < |Slice(idx.orgsByUserID, u)|
      ensures OrganizationMembershipAgrees(idx, u, Slice(idx.orgsByUserID, u)[i])
    {
      OrganizationMembershipOf(up, u, i);
    }
  }

  lemma ClustersAgreeOf(up: Upstream)
    ensures ClustersAgree(IndexOf(up))
  {
    var idx := IndexOf(up);
    forall k | k in idx.clustersByRegistrationKey
      ensures var c := idx.clustersByRegistrationKey[k]; c in Slice(idx.clustersByTenantID, c.tenantID)
    {
      LastMapReads(up.clusters, RegistrationKeyOf, ToC, k);
      var x := LastWith(up.clusters, RegistrationKeyOf, k).value;
      var i := LastWithAt(up.clusters, RegistrationKeyOf, k);
      GroupHolds(up.clusters, ClusterTenantOf, ToC, x);
      GroupMapReads(up.clusters, ClusterTenantOf, ToC, x.tenantID);
    }
    forall t, i | 0 <= i < |Slice(idx.clustersByTenantID, t)|
      ensures Slice(idx.clustersByTenantID, t)[i].tenantID == t
    {
      GroupMapReads(up.clusters, ClusterTenantOf, ToC, t);
      var j := GroupMember(up.clusters, ClusterTenantOf, ToC, t, i);
    }
  }

  /** Every accepted upstream answer is indexed consistently. */
  lemma IndexOfWellFormed(up: Upstream)
    requires Accepted(up)
    ensures WellFormed(IndexOf(up))
  {
    ProjectsAgreeOf(up);
    TenantsAgreeOf(up);
    ClustersAgreeOf(up);
  }
}
