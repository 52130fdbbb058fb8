/** The authorizer: answers requests by reading the store through its getters. */
module Server {
  import opened Wrappers
  import opened Lists
  import opened Records
  import opened KubernetesEnvs
  import opened Decision
  import opened Cache

  /** The first default project, or the first project. */
  method Pick(projects: seq<P>) returns (p: P)
    requires projects != []
    ensures PickProject(projects) == Some(p)
  {
    for i := 0 to |projects|
      invariant FirstDefault(projects[..i]).None?
    {
      assert projects[..i + 1][..i] == projects[..i];
      if projects[i].isDefault {
        FirstDefaultKept(projects, i + 1);
        return projects[i];
      }
    }
    assert projects[..|projects|] == projects;
    p := projects[0];
  }

  lemma {:induction false} FirstDefaultKept(projects: seq<P>, n: nat)
    requires n <= |projects| && FirstDefault(projects[..n]).Some?
    ensures FirstDefault(projects) == FirstDefault(projects[..n])
    decreases |projects|
  {
    if n < |projects| {
      assert projects[..|projects| - 1][..n] == projects[..n];
      FirstDefaultKept(projects[..|projects| - 1], n);
    } else {
      assert projects[..n] == projects;
    }
  }

  class AuthorizationServer {
    const cache: Store
    const config: Config

    constructor (cache: Store, config: Config)
      ensures this.cache == cache && this.config == config
    {
      this.cache := cache;
      this.config := config;
    }

    method Authorized(requestScope: string, orgRole: OrganizationRole, projectRole: ProjectRole)
      returns (r: bool)
      ensures r <==> Permitted(config, requestScope, orgRole, projectRole)
    {
      var role: string;
      match orgRole {
        case OrgRoleOwner => role := "organizationOwner";
        case OrgRoleTenantSystem => role := "tenantSystem";
        case OrgRoleReader =>
          match projectRole {
            case ProjectRoleOwner => role := "projectOwner";
            case ProjectRoleMember => role := "projectMember";
            case _ => return false;
          }
        case _ => return false;
      }
      if role !in config.roleScopes {
        return false;
      }
      var allowedScopes := config.roleScopes[role];
      for i := 0 to |allowedScopes|
        invariant requestScope !in allowedScopes[..i]
      {
        if allowedScopes[i] == requestScope {
          return true;
        }
      }
      assert allowedScopes[..|allowedScopes|] == allowedScopes;
      r := false;
    }

    /** The projects of the user's memberships in one organization. */
    method UserCandidatesIn(organizationID: string, userProjects: seq<PU>) returns (projects: seq<P>)
      ensures projects == Group(userProjects, MembershipOrganizationOf, MembershipProjectOf, organizationID)
    {
      projects := [];
      for i := 0 to |userProjects|
        invariant projects == Group(userProjects[..i], MembershipOrganizationOf, MembershipProjectOf, organizationID)
      {
        var p := userProjects[i];
        GroupSnoc(userProjects[..i], p, MembershipOrganizationOf, MembershipProjectOf, organizationID);
        assert userProjects[..i + 1] == userProjects[..i] + [p];
        if p.organizationID != organizationID {
          continue;
        }
        projects := projects + [p.project];
      }
      assert userProjects[..|userProjects|] == userProjects;
    }

    method FindAssociatedProject(
      requestedOrgID: string, requestedProjectID: string, userProjects: seq<PU>, userOrgs: seq<OU>)
      returns (r: Option<P>)
      ensures r == SelectProject(cache.Contents(), requestedOrgID, requestedProjectID, userProjects, userOrgs)
    {
      if requestedProjectID != "" {
        var p := cache.GetProjectByID(requestedProjectID);
        if p.None? {
          return None;
        }
        if requestedOrgID != "" && requestedOrgID != p.value.organizationID {
          return None;
        }
        return p;
      }

      var projects: seq<P>;
      if requestedOrgID != "" {
        if cache.GetOrganizationByID(requestedOrgID).None? {
          return None;
        }
        projects := UserCandidatesIn(requestedOrgID, userProjects);
        projects := projects + cache.GetProjectsByOrganizationID(requestedOrgID);
        if projects == [] {
          return None;
        }
        var picked := Pick(projects);
        return Some(picked);
      }

      projects := [];
      for i := 0 to |userProjects|
        invariant projects == Map(userProjects[..i], MembershipProjectOf)
      {
        projects := projects + [userProjects[i].project];
      }
      assert userProjects[..|userProjects|] == userProjects;
      for i := 0 to |userOrgs|
        invariant projects == Map(userProjects, MembershipProjectOf)
                            + ProjectsOfOrganizations(cache.projectsByOrganizationID, userOrgs[..i])
      {
        assert userOrgs[..i + 1][..i] == userOrgs[..i];
        projects := projects + cache.GetProjectsByOrganizationID(userOrgs[i].organizationID);
      }
      assert userOrgs[..|userOrgs|] == userOrgs;
      if projects == [] {
        return None;
      }
      var picked := Pick(projects);
      r := Some(picked);
    }

    /** The role of the first membership in the project. */
    method ProjectRoleFor(userProjects: seq<PU>, projectID: string) returns (role: ProjectRole)
      ensures role == ProjectRoleOn(userProjects, projectID)
    {
      for i := 0 to |userProjects|
        invariant FirstWith(userProjects[..i], MembershipProjectIDOf, projectID).None?
      {
        assert userProjects[..i + 1][..i] == userProjects[..i];
        if userProjects[i].project.id == projectID {
          FirstWithKept(userProjects, MembershipProjectIDOf, projectID, i + 1);
          return userProjects[i].role;
        }
      }
      assert userProjects[..|userProjects|] == userProjects;
      role := ProjectRoleUnspecified;
    }

    /** The role of the first membership in the organization. */
    method OrganizationRoleFor(userOrgs: seq<OU>, organizationID: string) returns (role: OrganizationRole)
      ensures role == OrganizationRoleIn(userOrgs, organizationID)
    {
      for i := 0 to |userOrgs|
        invariant FirstWith(userOrgs[..i], RoleOrganizationOf, organizationID).None?
      {
        assert userOrgs[..i + 1][..i] == userOrgs[..i];
        if userOrgs[i].organizationID == organizationID {
          FirstWithKept(userOrgs, RoleOrganizationOf, organizationID, i + 1);
          return userOrgs[i].role;
        }
      }
      assert userOrgs[..|userOrgs|] == userOrgs;
      role := OrgRoleUnspecified;
    }

    method FindAssociatedProjectAndRoles(userID: string, requestedOrgID: string, requestedProjectID: string)
      returns (r: Option<ProjectAndRoles>)
      ensures r == AssociatedProjectAndRoles(cache.Contents(), userID, requestedOrgID, requestedProjectID)
    {
      var userProjects := cache.GetProjectsByUserID(userID);
      var userOrgs := cache.GetOrganizationsByUserID(userID);
      var project := FindAssociatedProject(requestedOrgID, requestedProjectID, userProjects, userOrgs);
      if project.None? {
        return None;
      }
      var projectRole := ProjectRoleFor(userProjects, project.value.id);
      var orgRole := OrganizationRoleFor(userOrgs, project.value.organizationID);
      if orgRole == OrgRoleUnspecified {
        return None;
      }
      r := Some(ProjectAndRoles(project.value, orgRole, projectRole));
    }

    /** With no update in between, the answer is the decision on the store's content. */
    method Authorize(req: Request, answer: Introspection) returns (r: Result<Response, StatusError>)
      ensures r == Decide(cache.Contents(), config, req, answer)
    {
      if req.token == "" { return Err(InvalidArgument("token is required")); }
      if req.accessResource == "" { return Err(InvalidArgument("access resource is required")); }
      if req.capability == "" { return Err(InvalidArgument("capability is required")); }

      var key := cache.GetAPIKeyBySecret(req.token);
      if key.Some? {
        var k := key.value;
        var project := cache.GetProjectByID(k.projectID);
        if project.None? { return Ok(DENIED); }
        var org := cache.GetOrganizationByID(k.organizationID);
        if org.None? { return Ok(DENIED); }
        var authorized := Authorized(ToScope(req), k.organizationRole, k.projectRole);
        var envs := AssignedKubernetesEnvs(project.value.kubernetesNamespace, project.value.assignments,
                                           cache.GetClustersByTenantID(k.tenantID));
        return Ok(Response(
          authorized,
          Some(UserMessage(k.userID, k.internalUserID)),
          Some(OrganizationMessage(k.organizationID, org.value.title)),
          Some(ProjectMessage(k.projectID, project.value.title, envs)),
          k.tenantID, k.keyID, k.excludedFromRateLimiting));
      }

      if answer.IntrospectionFailed? { return Err(Internal(answer.message)); }
      if answer.Inactive? { return Ok(DENIED); }

      var userID := config.normalize(answer.email);
      var user := cache.GetUserByID(userID);
      if user.None? { return Ok(DENIED); }
      var u := user.value;

      if "api.organizations" <= req.accessResource {
        return Ok(Response(
          true,
          Some(UserMessage(userID, u.internalID)),
          Some(OrganizationMessage("", "")),
          Some(ProjectMessage("", "", [])),
          u.tenantID, "", false));
      }

      var found := FindAssociatedProjectAndRoles(userID, req.organizationID, req.projectID);
      if found.None? { return Ok(DENIED); }
      var pr := found.value;
      var org := cache.GetOrganizationByID(pr.project.organizationID);
      if org.None? { return Ok(DENIED); }
      var authorized := Authorized(ToScope(req), pr.orgRole, pr.projectRole);
      var envs := AssignedKubernetesEnvs(pr.project.kubernetesNamespace, pr.project.assignments,
                                         cache.GetClustersByTenantID(u.tenantID));
      r := Ok(Response(
        authorized,
        Some(UserMessage(userID, u.internalID)),
        Some(OrganizationMessage(pr.project.organizationID, org.value.title)),
        Some(ProjectMessage(pr.project.id, pr.project.title, envs)),
        u.tenantID, "", false));
    }
  }
}
