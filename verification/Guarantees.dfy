/** What the decision guarantees on one snapshot, stated on the raw upstream lists. */
module Guarantees {
  import opened Wrappers
  import opened Lists
  import opened Records
  import opened Indexes
  import opened SyncRuns
  import opened KubernetesEnvs
  import opened Decision
  import opened Reference

  // Errors.

  /**
   A request fails exactly when it lacks an argument, or its token is no listed API key and cannot be introspected.
   Without a key, an inactive token is denied.
   */
  lemma ErrorsExactly(up: Upstream, config: Config, req: Request, answer: Introspection)
    requires Accepted(up)
    ensures var lacking := req.token == "" || req.accessResource == "" || req.capability == "";
            var isKey := exists i :: 0 <= i < |up.apiKeys| && up.apiKeys[i].secret == req.token;
            var r := Decide(IndexOf(up), config, req, answer);
            && (r.Err? && r.error.InvalidArgument? <==> lacking)
            && (r.Err? && r.error.Internal? <==> !lacking && !isKey && answer.IntrospectionFailed?)
            && (r.Err? && r.error.Internal? ==> r.error.message == answer.message)
            && (!lacking && !isKey && answer.Inactive? ==>
                  r.Ok? && !r.value.authorized && r.value.user.None?
                  && r.value.organization.None? && r.value.project.None?)
  {
    KeyRead(up, req.token);
    assert forall i | 0 <= i < |up.apiKeys| :: SecretOf(up.apiKeys[i]) == up.apiKeys[i].secret;
  }

  // Tenants.

  lemma RoleIsListed(userOrgs: seq<OU>, organizationID: string) returns (i: nat)
    requires OrganizationRoleIn(userOrgs, organizationID) != OrgRoleUnspecified
    ensures i < |userOrgs| && userOrgs[i].organizationID == organizationID
  {
    i := FirstWithAt(userOrgs, RoleOrganizationOf, organizationID);
  }

  lemma SelectedTenant(idx: Index, userID: string, organizationID: string, projectID: string)
    requires WellFormed(idx)
    ensures var pr := AssociatedProjectAndRoles(idx, userID, organizationID, projectID);
            pr.Some? ==>
              && userID in idx.usersByID
              && pr.value.project.organizationID in idx.orgsByID
              && idx.orgsByID[pr.value.project.organizationID].tenantID == idx.usersByID[userID].tenantID
  {
    var pr := AssociatedProjectAndRoles(idx, userID, organizationID, projectID);
    if pr.Some? {
      var i := RoleIsListed(Slice(idx.orgsByUserID, userID), pr.value.project.organizationID);
      assert OrganizationMembershipAgrees(idx, userID, Slice(idx.orgsByUserID, userID)[i]);
    }
  }

  /**
   In every reachable state and whatever organization and project a request names, a selected project belongs to a
   cached organization of the user's own tenant. In particular the lookup of that organization cannot fail.
   */
  lemma TenantCoherence(
    events: seq<Event>, userID: string, organizationID: string, projectID: string)
    ensures var idx := Run(events).store.index;
            var pr := AssociatedProjectAndRoles(idx, userID, organizationID, projectID);
            pr.Some? ==>
              && userID in idx.usersByID
              && pr.value.project.organizationID in idx.orgsByID
              && idx.orgsByID[pr.value.project.organizationID].tenantID == idx.usersByID[userID].tenantID
  {
    RunInvariant(events);
    SelectedTenant(Run(events).store.index, userID, organizationID, projectID);
  }

  /** The tenant of a user: that of the organization of any of its memberships. */
  function UserTenant(up: Upstream, userID: string): Option<string> {
    match FirstWith(up.organizationUsers, OrganizationMemberOf, userID)
    case Some(m) => TenantOf(up.organizations, m.organizationID)
    case None => None
  }

  /** The resources left to the handler are those named "api.organizations" followed by anything. */
  lemma OrganizationResources(req: Request)
    ensures NotProjectScoped(req) <==> exists rest :: req.accessResource == "api.organizations" + rest
  {
    var prefix := "api.organizations";
    if NotProjectScoped(req) {
      assert req.accessResource == prefix + req.accessResource[|prefix|..];
    }
  }

  /** The first listed organization membership of the user. */
  ghost predicate FirstListed(up: Upstream, i: nat, userID: string) {
    && i < |up.organizationUsers|
    && up.organizationUsers[i].userID == userID
    && forall j | 0 <= j < i :: up.organizationUsers[j].userID != userID
  }

  lemma FirstListedRead(up: Upstream, i: nat, userID: string)
    requires FirstListed(up, i, userID)
    ensures FirstWith(up.organizationUsers, OrganizationMemberOf, userID) == Some(up.organizationUsers[i])
  {
    assert OrganizationMemberOf(up.organizationUsers[i]) == userID;
    var k := FirstWithAt(up.organizationUsers, OrganizationMemberOf, userID);
    assert OrganizationMemberOf(up.organizationUsers[k]) == up.organizationUsers[k].userID;
    assert k == i;
  }

  lemma ListedFirst(up: Upstream, userID: string) returns (i: nat)
    requires FirstWith(up.organizationUsers, OrganizationMemberOf, userID).Some?
    ensures FirstListed(up, i, userID)
  {
    i := FirstWithAt(up.organizationUsers, OrganizationMemberOf, userID);
    assert forall j | 0 <= j < |up.organizationUsers| ::
        OrganizationMemberOf(up.organizationUsers[j]) == up.organizationUsers[j].userID;
  }

  /** On such a resource a listed user is authorized, as nobody but that user, about no organization and no project. */
  lemma OrganizationResourceAnswer(
    up: Upstream, config: Config, req: Request, rest: string, userID: string, i: nat)
    requires Accepted(up) && FirstListed(up, i, userID)
    requires req.accessResource == "api.organizations" + rest
    ensures var r, m := DecideUser(IndexOf(up), config, req, userID), up.organizationUsers[i];
            && r.authorized
            && r.user.Some? && r.user.value.id == userID && r.user.value.internalID == m.internalUserID
            && TenantOf(up.organizations, m.organizationID) == UserTenant(up, userID) == Some(r.tenantID)
            && r.organization.Some? && r.organization.value.id == "" && r.organization.value.title == ""
            && r.project.Some? && r.project.value.id == "" && r.project.value.title == ""
            && r.project.value.assignedKubernetesEnvs == []
            && r.apiKeyID == "" && !r.excludedFromRateLimiting
  {
    FirstListedRead(up, i, userID);
    assert OrganizationListed(up, i);
    UserRefinement(up, config, req, userID);
  }

  /** An answer about a user says who that is, as its first membership has it, and reports the user's tenant. */
  lemma UserAnswer(up: Upstream, config: Config, req: Request, userID: string) returns (i: nat)
    requires Accepted(up)
    ensures var r := DecideUser(IndexOf(up), config, req, userID);
            if r.user.Some? then
              && FirstListed(up, i, userID)
              && r.user.value.id == userID && r.user.value.internalID == up.organizationUsers[i].internalUserID
              && UserTenant(up, userID) == Some(r.tenantID)
              && r.apiKeyID == "" && !r.excludedFromRateLimiting
            else !r.authorized && r.organization.None? && r.project.None?
  {
    i := 0;
    UserRefinement(up, config, req, userID);
    if FirstWith(up.organizationUsers, OrganizationMemberOf, userID).Some? {
      i := ListedFirst(up, userID);
      FirstListedRead(up, i, userID);
      assert OrganizationListed(up, i);
    }
  }

  /**
   Every response to a user reports the user's tenant. If the resource is project-scoped and the response names an
   organization, that is of this tenant; else it names none.
   */
  lemma TenantIsolation(up: Upstream, config: Config, req: Request, userID: string)
    requires Accepted(up)
    ensures var r := DecideUser(IndexOf(up), config, req, userID);
            r.organization.Some? ==>
              && UserTenant(up, userID) == Some(r.tenantID)
              && (if NotProjectScoped(req) then r.organization.value.id == ""
                  else TenantOf(up.organizations, r.organization.value.id) == Some(r.tenantID))
  {
    var r := DecideUser(IndexOf(up), config, req, userID);
    var i := UserAnswer(up, config, req, userID);
    if r.organization.Some? && !NotProjectScoped(req) {
      AnsweredOrganization(up, config, req, userID);
      var j := FirstMemberListed(up.organizationUsers, userID, r.organization.value.id);
      assert OrganizationListed(up, i) && SameTenant(up, i, j);
      FirstListedRead(up, i, userID);
    }
  }

  /** A request for a project of another tenant is denied. */
  lemma ForeignProjectDenied(up: Upstream, config: Config, req: Request, userID: string)
    requires Accepted(up) && !NotProjectScoped(req) && req.projectID != ""
    requires var p := LastProject(up, req.projectID);
             p.Some? && TenantOf(up.organizations, p.value.organizationID) != UserTenant(up, userID)
    ensures DecideUser(IndexOf(up), config, req, userID) == DENIED
  {
    TenantIsolation(up, config, req, userID);
    AnsweredOrganization(up, config, req, userID);
  }

  // The API-key path trusts the key record.

  ghost predicate KeyTenantCoherent(up: Upstream, r: Response) {
    r.organization.Some? ==> TenantOf(up.organizations, r.organization.value.id) == Some(r.tenantID)
  }

  /** The key that a token denotes, if its project and organization are listed, is of that organization's tenant. */
  ghost predicate KeyRecordCoherent(up: Upstream, token: string) {
    var k := LastWith(up.apiKeys, SecretOf, token);
    && token != ""
    && k.Some?
    && ProjectNamed(up.projects, k.value.projectID).Some?
    && TenantOf(up.organizations, k.value.organizationID).Some?
    ==> TenantOf(up.organizations, k.value.organizationID) == Some(k.value.tenantID)
  }

  /** Responses to API keys report the tenant of their organization exactly when the key records do. */
  lemma KeyTenants(up: Upstream, config: Config, token: string)
    ensures KeyRecordCoherent(up, token)
       <==> forall req: Request, answer: Introspection ::
              && req.token == token && LastWith(up.apiKeys, SecretOf, token).Some?
              && Decide(IndexOf(up), config, req, answer).Ok?
              ==> KeyTenantCoherent(up, Decide(IndexOf(up), config, req, answer).value)
  {
    var k := LastWith(up.apiKeys, SecretOf, token);
    KeyRead(up, token);
    if k.Some? {
      forall req: Request, answer: Introspection | req.token == token && Decide(IndexOf(up), config, req, answer).Ok?
        ensures Decide(IndexOf(up), config, req, answer) == Ok(ReferenceKey(up, config, req, k.value))
        ensures token != ""
      {
        KeyRefinement(up, config, req, k.value);
      }
      if token != "" {
        var req := Request(token, "r", "c", "", "");
        assert Decide(IndexOf(up), config, req, Inactive).Ok?;
      }
    }
  }

  /** One organization with one project, and a key for them that is recorded under another tenant. */
  function KeyOfOtherTenant(own: string, recorded: string): Upstream {
    Upstream(
      [APIKey("secret", "k", "u", "i", "o", "p", recorded, OrgRoleOwner, ProjectRoleOwner, false)],
      [],
      [Organization("o", "", false, own)],
      [],
      [Project("p", "", "o", "", [], false)],
      [])
  }

  /** An update accepts such lists, and the response to the key names an organization that is not of its tenant. */
  lemma KeyTenantNotCoherent(own: string, recorded: string, config: Config, req: Request, answer: Introspection)
    requires own != recorded && req.token == "secret" && MissingArgument(req).None?
    ensures var up := KeyOfOtherTenant(own, recorded);
            && Accepted(up) && !KeyRecordCoherent(up, "secret")
            && Decide(IndexOf(up), config, req, answer).Ok?
            && var r := Decide(IndexOf(up), config, req, answer).value;
               r.organization.Some? && r.tenantID == recorded
               && TenantOf(up.organizations, r.organization.value.id) == Some(own)
  {
    var up := KeyOfOtherTenant(own, recorded);
    var k := up.apiKeys[0];
    assert LastWith(up.apiKeys, SecretOf, "secret") == Some(k);
    assert TenantOf(up.organizations, "o") == Some(own);
    assert ProjectNamed(up.projects, "p").Some?;
    KeyRead(up, "secret");
    KeyRefinement(up, config, req, k);
  }

  // Kubernetes environments.

  /** The environments of a response are an expansion over the clusters of its tenant, or there are none. */
  lemma ResponseEnvs(idx: Index, config: Config, req: Request, answer: Introspection) returns (p: P)
    requires Decide(idx, config, req, answer).Ok?
    ensures var r := Decide(idx, config, req, answer).value;
            r.project.Some? ==>
              || r.project.value.assignedKubernetesEnvs == []
              || r.project.value.assignedKubernetesEnvs
                 == Envs(p.kubernetesNamespace, p.assignments, Slice(idx.clustersByTenantID, r.tenantID))
  {
    p := NO_PROJECT;
    var key := Lookup(idx.apiKeysBySecret, req.token);
    if key.Some? {
      var project := Lookup(idx.projectsByID, key.value.projectID);
      if project.Some? { p := project.value; }
    } else if answer.Active? {
      var pr := AssociatedProjectAndRoles(idx, config.normalize(answer.email), req.organizationID, req.projectID);
      if pr.Some? { p := pr.value.project; }
    }
  }

  /** An upstream record of a cluster that `e` is an environment of carries the tenant. */
  ghost predicate OnUpstreamCluster(up: Upstream, tenantID: string, e: Env) {
    exists i :: 0 <= i < |up.clusters| && up.clusters[i].id == e.clusterID && up.clusters[i].name == e.clusterName
                && up.clusters[i].tenantID == tenantID
  }

  lemma CachedIsUpstream(up: Upstream, tenantID: string, c: C, e: Env)
    requires c in Slice(IndexOf(up).clustersByTenantID, tenantID) && e == At(c, e.namespace)
    ensures OnUpstreamCluster(up, tenantID, e)
  {
    var clusters := Slice(IndexOf(up).clustersByTenantID, tenantID);
    ClustersRead(up, tenantID);
    var j :| 0 <= j < |clusters| && clusters[j] == c;
    var i := GroupMember(up.clusters, ClusterTenantOf, ToC, tenantID, j);
  }

  /** Every environment of a response is on an upstream cluster of the response's tenant. */
  lemma EnvsOfTenant(up: Upstream, config: Config, req: Request, answer: Introspection, e: Env)
    requires Decide(IndexOf(up), config, req, answer).Ok?
    requires var r := Decide(IndexOf(up), config, req, answer).value;
             r.project.Some? && e in r.project.value.assignedKubernetesEnvs
    ensures OnUpstreamCluster(up, Decide(IndexOf(up), config, req, answer).value.tenantID, e)
  {
    var r := Decide(IndexOf(up), config, req, answer).value;
    var clusters := Slice(IndexOf(up).clustersByTenantID, r.tenantID);
    var p := ResponseEnvs(IndexOf(up), config, req, answer);
    var c := EnvNamesCluster(Shared(p.kubernetesNamespace, p.assignments), Own(p.assignments), clusters, e);
    CachedIsUpstream(up, r.tenantID, c, e);
  }

  // Roles and scopes.

  /** The first listed membership of the user in the organization has this role. */
  ghost predicate HasOrganizationRole(up: Upstream, userID: string, organizationID: string, role: OrganizationRole) {
    exists i | 0 <= i < |up.organizationUsers| ::
      && InOrganization(up, i, userID, organizationID)
      && up.organizationUsers[i].role == role
      && forall j | 0 <= j < i :: !InOrganization(up, j, userID, organizationID)
  }

  ghost predicate InOrganization(up: Upstream, i: nat, userID: string, organizationID: string)
    requires i < |up.organizationUsers|
  {
    up.organizationUsers[i].userID == userID && up.organizationUsers[i].organizationID == organizationID
  }

  /** The first listed membership of the user in the project has this role. */
  ghost predicate HasProjectRole(up: Upstream, userID: string, projectID: string, role: ProjectRole) {
    exists i | 0 <= i < |up.projectUsers| ::
      && InProject(up, i, userID, projectID)
      && up.projectUsers[i].role == role
      && forall j | 0 <= j < i :: !InProject(up, j, userID, projectID)
  }

  ghost predicate InProject(up: Upstream, i: nat, userID: string, projectID: string)
    requires i < |up.projectUsers|
  {
    up.projectUsers[i].userID == userID && up.projectUsers[i].projectID == projectID
  }

  lemma {:induction false} FirstOrganizationMemberAt(up: Upstream, n: nat, userID: string, organizationID: string)
    returns (i: nat)
    requires n <= |up.organizationUsers|
    ensures i <= n
    ensures forall j | 0 <= j < i :: !InOrganization(up, j, userID, organizationID)
    ensures i < n ==> InOrganization(up, i, userID, organizationID)
    ensures FirstOrganizationMember(up.organizationUsers[..n], userID, organizationID)
         == if i < n then Some(up.organizationUsers[i]) else None
  {
    if n == 0 {
      i := 0;
    } else {
      assert up.organizationUsers[..n][..n - 1] == up.organizationUsers[..n - 1];
      i := FirstOrganizationMemberAt(up, n - 1, userID, organizationID);
      if i == n - 1 && !InOrganization(up, n - 1, userID, organizationID) {
        i := n;
      }
    }
  }

  lemma {:induction false} FirstProjectMemberAt(up: Upstream, n: nat, userID: string, projectID: string)
    returns (i: nat)
    requires n <= |up.projectUsers|
    ensures i <= n
    ensures forall j | 0 <= j < i :: !InProject(up, j, userID, projectID)
    ensures i < n ==> InProject(up, i, userID, projectID)
    ensures FirstProjectMember(up.projectUsers[..n], userID, projectID)
         == if i < n then Some(up.projectUsers[i]) else None
  {
    if n == 0 {
      i := 0;
    } else {
      assert up.projectUsers[..n][..n - 1] == up.projectUsers[..n - 1];
      i := FirstProjectMemberAt(up, n - 1, userID, projectID);
      if i == n - 1 && !InProject(up, n - 1, userID, projectID) {
        i := n;
      }
    }
  }

  lemma OrganizationRoleMeaning(up: Upstream, userID: string, organizationID: string, role: OrganizationRole)
    requires role != OrgRoleUnspecified
    ensures ListedOrganizationRole(up, userID, organizationID) == role
       <==> HasOrganizationRole(up, userID, organizationID, role)
  {
    var i := FirstOrganizationMemberAt(up, |up.organizationUsers|, userID, organizationID);
    assert up.organizationUsers[..|up.organizationUsers|] == up.organizationUsers;
  }

  lemma ProjectRoleMeaning(up: Upstream, userID: string, projectID: string, role: ProjectRole)
    requires role != ProjectRoleUnspecified
    ensures ListedProjectRole(up, userID, projectID) == role <==> HasProjectRole(up, userID, projectID, role)
  {
    var i := FirstProjectMemberAt(up, |up.projectUsers|, userID, projectID);
    assert up.projectUsers[..|up.projectUsers|] == up.projectUsers;
  }

  /** The roles of the user on the project, as listed, allow the scope. */
  ghost predicate Grants(up: Upstream, config: Config, scope: string, userID: string, p: Project) {
    || (HasOrganizationRole(up, userID, p.organizationID, OrgRoleOwner)
        && scope in Slice(config.roleScopes, "organizationOwner"))
    || (HasOrganizationRole(up, userID, p.organizationID, OrgRoleTenantSystem)
        && scope in Slice(config.roleScopes, "tenantSystem"))
    || (HasOrganizationRole(up, userID, p.organizationID, OrgRoleReader)
        && HasProjectRole(up, userID, p.id, ProjectRoleOwner)
        && scope in Slice(config.roleScopes, "projectOwner"))
    || (HasOrganizationRole(up, userID, p.organizationID, OrgRoleReader)
        && HasProjectRole(up, userID, p.id, ProjectRoleMember)
        && scope in Slice(config.roleScopes, "projectMember"))
  }

  lemma PermittedMeaning(up: Upstream, config: Config, scope: string, userID: string, p: Project)
    ensures Permitted(config, scope, ListedOrganizationRole(up, userID, p.organizationID),
                      ListedProjectRole(up, userID, p.id))
       <==> Grants(up, config, scope, userID, p)
  {
    OrganizationRoleMeaning(up, userID, p.organizationID, OrgRoleOwner);
    OrganizationRoleMeaning(up, userID, p.organizationID, OrgRoleTenantSystem);
    OrganizationRoleMeaning(up, userID, p.organizationID, OrgRoleReader);
    ProjectRoleMeaning(up, userID, p.id, ProjectRoleOwner);
    ProjectRoleMeaning(up, userID, p.id, ProjectRoleMember);
  }

  /** A user is authorized exactly when a project is selected and the listed roles on it grant the scope. */
  lemma AuthorizedExactly(up: Upstream, config: Config, req: Request, userID: string)
    requires Accepted(up) && !NotProjectScoped(req)
    ensures DecideUser(IndexOf(up), config, req, userID).authorized
       <==> var p := SelectListed(up, req, userID);
            p.Some? && Grants(up, config, ToScope(req), userID, p.value)
  {
    ScopedAuthorization(up, config, req, userID);
    var p := SelectListed(up, req, userID);
    if p.Some? {
      PermittedMeaning(up, config, ToScope(req), userID, p.value);
      if FirstOrganizationMember(up.organizationUsers, userID, p.value.organizationID).Some? {
        var i := FirstMemberListed(up.organizationUsers, userID, p.value.organizationID);
        assert OrganizationMemberOf(up.organizationUsers[i]) == userID;
      }
    }
  }

  /** An organization reader without a role on the project is not authorized, whatever the role scopes are. */
  lemma ReaderWithoutProjectRole(up: Upstream, config: Config, req: Request, userID: string)
    requires Accepted(up) && !NotProjectScoped(req)
    requires var p := SelectListed(up, req, userID);
             && p.Some?
             && HasOrganizationRole(up, userID, p.value.organizationID, OrgRoleReader)
             && (forall i | 0 <= i < |up.projectUsers| :: !InProject(up, i, userID, p.value.id))
    ensures !DecideUser(IndexOf(up), config, req, userID).authorized
  {
    AuthorizedExactly(up, config, req, userID);
    OrganizationRoleMeaning(up, userID, SelectListed(up, req, userID).value.organizationID, OrgRoleReader);
    OrganizationRoleMeaning(up, userID, SelectListed(up, req, userID).value.organizationID, OrgRoleOwner);
    OrganizationRoleMeaning(up, userID, SelectListed(up, req, userID).value.organizationID, OrgRoleTenantSystem);
  }

  // Selection.

  lemma {:induction false} FirstDefaultAt(projects: seq<Project>) returns (i: nat)
    ensures i <= |projects|
    ensures forall j | 0 <= j < i :: !projects[j].isDefault
    ensures FirstDefaultListed(projects) == if i < |projects| then Some(projects[i]) else None
    ensures i < |projects| ==> projects[i].isDefault
  {
    if projects == [] {
      i := 0;
    } else {
      var n := |projects| - 1;
      i := FirstDefaultAt(projects[..n]);
      assert forall j | 0 <= j < i :: projects[j] == projects[..n][j];
      if i == n && !projects[n].isDefault {
        i := n + 1;
      }
    }
  }

  /** What is picked is a candidate: the first default one, or the first of all when none is default. */
  lemma PickedExactly(projects: seq<Project>, p: Project)
    ensures PickListed(projects) == Some(p)
       <==> exists i | 0 <= i < |projects| ::
              && projects[i] == p
              && (if projects[i].isDefault then forall j | 0 <= j < i :: !projects[j].isDefault
                  else i == 0 && forall j | 0 <= j < |projects| :: !projects[j].isDefault)
  {
    var d := FirstDefaultAt(projects);
  }

  /** The `i`th listed project is the last with this ID. */
  ghost predicate LastListed(up: Upstream, i: nat, projectID: string)
    requires i < |up.projects|
  {
    && up.projects[i].id == projectID
    && forall j | i < j < |up.projects| :: up.projects[j].id != projectID
  }

  lemma OneLastListed(up: Upstream, i: nat, projectID: string)
    requires i < |up.projects| && LastListed(up, i, projectID)
    ensures LastWith(up.projects, ProjectIDOf, projectID) == Some(up.projects[i])
  {
    assert ProjectIDOf(up.projects[i]) == projectID;
    var k := LastWithAt(up.projects, ProjectIDOf, projectID);
    assert k == i;
  }

  /** A request that names a project gets that project, or nothing, and never against the organization it names. */
  lemma ExplicitProject(up: Upstream, req: Request, userID: string)
    requires req.projectID != ""
    ensures SelectListed(up, req, userID).Some?
       <==> exists i | 0 <= i < |up.projects| ::
              && LastListed(up, i, req.projectID)
              && (req.organizationID == "" || req.organizationID == up.projects[i].organizationID)
    ensures SelectListed(up, req, userID).Some? ==> SelectListed(up, req, userID).value.id == req.projectID
  {
    forall i | 0 <= i < |up.projects| && LastListed(up, i, req.projectID)
      ensures LastWith(up.projects, ProjectIDOf, req.projectID) == Some(up.projects[i])
    {
      OneLastListed(up, i, req.projectID);
    }
    if LastWith(up.projects, ProjectIDOf, req.projectID).Some? {
      var i := LastWithAt(up.projects, ProjectIDOf, req.projectID);
      assert LastListed(up, i, req.projectID);
    }
  }

  lemma {:induction false} FirstDefaultConcat(a: seq<Project>, b: seq<Project>)
    ensures FirstDefaultListed(a + b)
         == if FirstDefaultListed(a).Some? then FirstDefaultListed(a) else FirstDefaultListed(b)
  {
    if b == [] {
      assert a + b == a;
    } else {
      var n := |b| - 1;
      assert (a + b)[..|a| + n] == a + b[..n];
      FirstDefaultConcat(a, b[..n]);
    }
  }

  /**
   A request that names nothing gets the first default project that the user is a member of, or else the first
   default one of the user's organizations, or else the first it is a member of, or else the first of its
   organizations.
   */
  lemma UnnamedSelection(up: Upstream, req: Request, userID: string)
    requires req.projectID == "" && req.organizationID == ""
    ensures var member := MemberProjects(up, up.projectUsers, userID, None);
            var others := ProjectsOfMember(up, up.organizationUsers, userID);
            SelectListed(up, req, userID)
            == if FirstDefaultListed(member).Some? then FirstDefaultListed(member)
               else if FirstDefaultListed(others).Some? then FirstDefaultListed(others)
               else if member != [] then Some(member[0])
               else if others != [] then Some(others[0])
               else None
  {
    FirstDefaultConcat(MemberProjects(up, up.projectUsers, userID, None),
                       ProjectsOfMember(up, up.organizationUsers, userID));
  }

  /** The candidates of a request that only names an organization: by memberships recorded under it, and its own. */
  function Recorded(up: Upstream, req: Request, userID: string): seq<Project> {
    MemberProjects(up, up.projectUsers, userID, Some(req.organizationID))
  }

  function Listed(up: Upstream, req: Request): seq<Project> {
    ListedProjects(up, req.organizationID)
  }

  /**
   Memberships recorded under the named organization do not divert the choice: the first default among their
   projects belongs to it, or there is none and either the organization lists a default of its own or the first of
   them belongs to it.
   */
  predicate Undiverted(recorded: seq<Project>, listed: seq<Project>, organizationID: string) {
    match FirstDefaultListed(recorded)
    case Some(p) => p.organizationID == organizationID
    case None => FirstDefaultListed(listed).Some? || recorded == [] || recorded[0].organizationID == organizationID
  }

  lemma SelectionHonoured(up: Upstream, req: Request, userID: string)
    requires req.projectID == "" && req.organizationID != "" && SelectListed(up, req, userID).Some?
    ensures SelectListed(up, req, userID).value.organizationID == req.organizationID
       <==> Undiverted(Recorded(up, req, userID), Listed(up, req), req.organizationID)
  {
    var recorded, listed := Recorded(up, req, userID), Listed(up, req);
    FirstDefaultConcat(recorded, listed);
    forall i | 0 <= i < |listed| ensures listed[i].organizationID == req.organizationID {
      WithMembers(up.projects, ProjectOrganizationOf, req.organizationID, listed[i]);
    }
    var d := FirstDefaultAt(listed);
  }

  /** A user is answered about the organization of the selected project, or denied. */
  lemma AnsweredOrganization(up: Upstream, config: Config, req: Request, userID: string)
    requires Accepted(up) && !NotProjectScoped(req)
    ensures var r, p := DecideUser(IndexOf(up), config, req, userID), SelectListed(up, req, userID);
            if p.Some? && ListedOrganizationRole(up, userID, p.value.organizationID) != OrgRoleUnspecified
            then r.organization.Some? && r.organization.value.id == p.value.organizationID
            else r == DENIED
  {
    UserRefinement(up, config, req, userID);
    var p := SelectListed(up, req, userID);
    if p.Some? && ListedOrganizationRole(up, userID, p.value.organizationID) != OrgRoleUnspecified {
      var i := FirstMemberListed(up.organizationUsers, userID, p.value.organizationID);
      assert OrganizationMemberOf(up.organizationUsers[i]) == userID;
    }
  }

  /**
   A user who names an organization and is answered about one is answered about that one exactly when the request
   also names a project or the memberships recorded under the organization do not divert the choice.
   */
  lemma OrganizationHonoured(up: Upstream, config: Config, req: Request, userID: string)
    requires Accepted(up) && !NotProjectScoped(req) && req.organizationID != ""
    requires DecideUser(IndexOf(up), config, req, userID).organization.Some?
    ensures DecideUser(IndexOf(up), config, req, userID).organization.value.id == req.organizationID
       <==> req.projectID != "" || Undiverted(Recorded(up, req, userID), Listed(up, req), req.organizationID)
  {
    AnsweredOrganization(up, config, req, userID);
    if req.projectID == "" {
      SelectionHonoured(up, req, userID);
    }
  }

  /** Upstream project memberships are recorded under their project's organization. */
  ghost predicate MembershipsAgree(up: Upstream) {
    forall i | 0 <= i < |up.projectUsers| ::
      var p := ProjectNamed(up.projects, up.projectUsers[i].projectID);
      p.Some? ==> p.value.organizationID == up.projectUsers[i].organizationID
  }

  lemma {:induction false} MemberProjectsAgree(up: Upstream, n: nat, userID: string, organizationID: string)
    requires n <= |up.projectUsers| && MembershipsAgree(up)
    ensures forall p | p in MemberProjects(up, up.projectUsers[..n], userID, Some(organizationID)) ::
              p.organizationID == organizationID
  {
    if n > 0 {
      assert up.projectUsers[..n][..n - 1] == up.projectUsers[..n - 1];
      MemberProjectsAgree(up, n - 1, userID, organizationID);
    }
  }

  lemma AgreeingMembershipsDoNotDivert(up: Upstream, req: Request, userID: string)
    requires MembershipsAgree(up)
    ensures Undiverted(Recorded(up, req, userID), Listed(up, req), req.organizationID)
  {
    MemberProjectsAgree(up, |up.projectUsers|, userID, req.organizationID);
    assert up.projectUsers[..|up.projectUsers|] == up.projectUsers;
    var d := FirstDefaultAt(Recorded(up, req, userID));
  }

  /** With such memberships, every user who names an organization is answered about that one, if about any. */
  lemma OrganizationAlwaysHonoured(up: Upstream, config: Config, req: Request, userID: string)
    requires Accepted(up) && MembershipsAgree(up) && !NotProjectScoped(req) && req.organizationID != ""
    requires DecideUser(IndexOf(up), config, req, userID).organization.Some?
    ensures DecideUser(IndexOf(up), config, req, userID).organization.value.id == req.organizationID
  {
    OrganizationHonoured(up, config, req, userID);
    AgreeingMembershipsDoNotDivert(up, req, userID);
  }

  // Naming an organization of another tenant.

  /**
   A user who names an organization that is not of the user's tenant is denied exactly when the request also names
   a project, or the organization is not listed, or memberships recorded under it do not divert the choice, or the
   user has no role in the organization that the choice is diverted to.
   */
  lemma ForeignOrganization(up: Upstream, config: Config, req: Request, userID: string)
    requires Accepted(up) && !NotProjectScoped(req) && req.organizationID != ""
    requires TenantOf(up.organizations, req.organizationID) != UserTenant(up, userID)
    ensures var recorded, listed := Recorded(up, req, userID), Listed(up, req);
            DecideUser(IndexOf(up), config, req, userID) == DENIED
            <==> || req.projectID != ""
                 || TenantOf(up.organizations, req.organizationID).None?
                 || Undiverted(recorded, listed, req.organizationID)
                 || var p := PickListed(recorded + listed);
                    p.Some? && ListedOrganizationRole(up, userID, p.value.organizationID) == OrgRoleUnspecified
  {
    AnsweredOrganization(up, config, req, userID);
    if DecideUser(IndexOf(up), config, req, userID).organization.Some? {
      TenantIsolation(up, config, req, userID);
      OrganizationHonoured(up, config, req, userID);
    }
  }

  /** It is always denied when project memberships are recorded under their project's organization. */
  lemma ForeignOrganizationDenied(up: Upstream, config: Config, req: Request, userID: string)
    requires Accepted(up) && MembershipsAgree(up) && !NotProjectScoped(req) && req.organizationID != ""
    requires TenantOf(up.organizations, req.organizationID) != UserTenant(up, userID)
    ensures DecideUser(IndexOf(up), config, req, userID) == DENIED
  {
    ForeignOrganization(up, config, req, userID);
    AgreeingMembershipsDoNotDivert(up, req, userID);
  }

  const STRAY_PROJECT := Project("p", "", "o1", "", [], false)

  /** The user's organization has the project, but the project membership is recorded under the other organization. */
  function StrayMembership(first: string, second: string): Upstream {
    Upstream(
      [], [],
      [Organization("o1", "", false, first), Organization("o2", "", false, second)],
      [OrganizationUser("u", "i", "o1", OrgRoleOwner)],
      [STRAY_PROJECT],
      [ProjectUser("u", "p", "o2", ProjectRoleOwner)])
  }

  lemma StrayResolves(first: string, second: string)
    ensures TenantOf(StrayMembership(first, second).organizations, "o1") == Some(first)
    ensures TenantOf(StrayMembership(first, second).organizations, "o2") == Some(second)
    ensures ProjectNamed([STRAY_PROJECT], "p") == Some(ToP(STRAY_PROJECT))
    ensures Accepted(StrayMembership(first, second))
  {
    var up := StrayMembership(first, second);
    var o1 := Organization("o1", "", false, first);
    assert "o2"[1] != "o1"[1];
    assert up.organizations[..1] == [o1] && LastWith([o1], OrganizationIDOf, "o1") == Some(o1);
  }

  lemma StrayCandidates(up: Upstream)
    requires up.projects == [STRAY_PROJECT] && up.projectUsers == [ProjectUser("u", "p", "o2", ProjectRoleOwner)]
    ensures MemberProjects(up, up.projectUsers, "u", Some("o2")) == [STRAY_PROJECT]
    ensures ListedProjects(up, "o2") == []
  {
    assert up.projectUsers[..0] == [];
    assert ProjectNamed([STRAY_PROJECT], "p") == Some(ToP(STRAY_PROJECT));
    assert [STRAY_PROJECT][..0] == [] && "o2"[1] != "o1"[1];
    assert With([STRAY_PROJECT], ProjectOrganizationOf, "o2") == [];
  }

  /**
   An update accepts such lists, and a request that names the second organization is answered, and authorized if
   owners have the scope, about the first: whether both are of one tenant or the second is of another.
   */
  lemma OrganizationNotHonoured(first: string, second: string, config: Config, req: Request)
    requires !NotProjectScoped(req) && req.projectID == "" && req.organizationID == "o2"
    ensures var up := StrayMembership(first, second);
            var r := DecideUser(IndexOf(up), config, req, "u");
            && Accepted(up)
            && UserTenant(up, "u") == Some(first) && TenantOf(up.organizations, "o2") == Some(second)
            && r.organization.Some? && r.organization.value.id == "o1" && r.tenantID == first
            && (r.authorized <==> ToScope(req) in Slice(config.roleScopes, "organizationOwner"))
  {
    var up := StrayMembership(first, second);
    StrayResolves(first, second);
    StrayCandidates(up);
    var m := up.organizationUsers[0];
    assert FirstWith(up.organizationUsers, OrganizationMemberOf, "u") == Some(m);
    assert FirstOrganizationMember(up.organizationUsers, "u", "o1") == Some(m);
    assert FirstDefaultListed([STRAY_PROJECT]) == None by {
      var d := FirstDefaultAt([STRAY_PROJECT]);
    }
    assert SelectListed(up, req, "u") == Some(STRAY_PROJECT);
    AnsweredOrganization(up, config, req, "u");
    TenantIsolation(up, config, req, "u");
    ScopedAuthorization(up, config, req, "u");
  }

  // Any run.

  const NOTHING_LISTED := Upstream([], [], [], [], [], [])

  /** The lists a store was last filled from; before the first commit it is as if nothing were listed. */
  ghost function LastCommitted(events: seq<Event>): Upstream {
    var commits := Commits(events);
    if commits == [] then NOTHING_LISTED else commits[|commits| - 1]
  }

  lemma StoreIsIndexOfLast(events: seq<Event>)
    ensures Accepted(LastCommitted(events))
    ensures Run(events).store.index == IndexOf(LastCommitted(events))
  {
    RunInvariant(events);
  }

  /** After any run, every request is answered as the scans of the last committed lists answer it. */
  lemma RunRefinement(events: seq<Event>, config: Config, req: Request, answer: Introspection)
    ensures Decide(Run(events).store.index, config, req, answer)
         == ReferenceDecision(LastCommitted(events), config, req, answer)
  {
    StoreIsIndexOfLast(events);
    Refinement(LastCommitted(events), config, req, answer);
  }

  /** Before the first commit nothing is authorized. */
  lemma NothingBeforeSync(events: seq<Event>, config: Config, req: Request, answer: Introspection)
    requires Commits(events) == [] && Decide(Run(events).store.index, config, req, answer).Ok?
    ensures Decide(Run(events).store.index, config, req, answer) == Ok(DENIED)
  {
    RunInvariant(events);
  }
}
