/** The store that the authorizer reads, and the update that refills it. */
module Cache {
  import opened Wrappers
  import opened Lists
  import opened Records
  import opened Indexes
  import opened SyncRuns

  datatype UpdateError =
    | ListFailed(message: string)
    | ProjectNotFound(projectID: string, userID: string)
    | OrganizationNotFound(organizationID: string, userID: string)
    | MultipleTenantIDs(userID: string)

  /** The first `n` organization memberships resolve and agree on tenants user by user. */
  ghost predicate MembersAgree(up: Upstream, n: nat)
    requires n <= |up.organizationUsers|
  {
    && (forall i | 0 <= i < n :: OrganizationListed(up, i))
    && (forall i, j | 0 <= i < n && 0 <= j < n ::
          up.organizationUsers[i].userID == up.organizationUsers[j].userID ==> SameTenant(up, i, j))
  }

  /** The first `n` project memberships name listed projects. */
  ghost predicate MembershipsResolve(up: Upstream, n: nat)
    requires n <= |up.projectUsers|
  {
    forall j | 0 <= j < n :: ProjectListed(up, j)
  }

  /** The `i`th project membership is the first with an unlisted project. */
  ghost predicate FirstDangling(up: Upstream, i: nat)
    requires i < |up.projectUsers|
  {
    !ProjectListed(up, i) && MembershipsResolve(up, i)
  }

  /** The `i`th organization membership is the first with an unlisted organization or a second tenant. */
  ghost predicate FirstBadMember(up: Upstream, i: nat)
    requires i < |up.organizationUsers|
  {
    && ProjectUsersResolve(up)
    && MembersAgree(up, i)
    && !MembersAgree(up, i + 1)
  }

  /** `e` names the first record that makes `up` unacceptable; project memberships are examined first. */
  ghost predicate Faults(up: Upstream, e: UpdateError) {
    match e
    case ListFailed(_) => false
    case ProjectNotFound(projectID, userID) =>
      exists i | 0 <= i < |up.projectUsers| ::
        && FirstDangling(up, i)
        && up.projectUsers[i].projectID == projectID && up.projectUsers[i].userID == userID
    case OrganizationNotFound(organizationID, userID) =>
      exists i | 0 <= i < |up.organizationUsers| ::
        && FirstBadMember(up, i) && !OrganizationListed(up, i)
        && up.organizationUsers[i].organizationID == organizationID && up.organizationUsers[i].userID == userID
    case MultipleTenantIDs(userID) =>
      exists i | 0 <= i < |up.organizationUsers| ::
        && FirstBadMember(up, i) && OrganizationListed(up, i)
        && up.organizationUsers[i].userID == userID
  }

  // The loops that build the indexes.

  method IndexAPIKeys(list: seq<APIKey>) returns (m: map<string, K>)
    ensures m == LastMap(list, SecretOf, ToK)
  {
    m := map[];
    for i := 0 to |list|
      invariant m == LastMap(list[..i], SecretOf, ToK)
    {
      assert list[..i + 1][..i] == list[..i];
      m := m[list[i].secret := ToK(list[i])];
    }
    assert list[..|list|] == list;
  }

  method IndexClusters(list: seq<Cluster>) returns (cs: map<string, C>, csByTenantID: map<string, seq<C>>)
    ensures cs == LastMap(list, RegistrationKeyOf, ToC)
    ensures csByTenantID == GroupMap(list, ClusterTenantOf, ToC)
  {
    cs, csByTenantID := map[], map[];
    for i := 0 to |list|
      invariant cs == LastMap(list[..i], RegistrationKeyOf, ToC)
      invariant csByTenantID == GroupMap(list[..i], ClusterTenantOf, ToC)
    {
      assert list[..i + 1][..i] == list[..i];
      var c := ToC(list[i]);
      cs := cs[list[i].registrationKey := c];
      csByTenantID := csByTenantID[list[i].tenantID := Slice(csByTenantID, list[i].tenantID) + [c]];
    }
    assert list[..|list|] == list;
  }

  method IndexOrganizations(list: seq<Organization>) returns (orgsByID: map<string, O>)
    ensures orgsByID == LastMap(list, OrganizationIDOf, ToO)
  {
    orgsByID := map[];
    for i := 0 to |list|
      invariant orgsByID == LastMap(list[..i], OrganizationIDOf, ToO)
    {
      assert list[..i + 1][..i] == list[..i];
      orgsByID := orgsByID[list[i].id := ToO(list[i])];
    }
    assert list[..|list|] == list;
  }

  method IndexOrganizationUsers(list: seq<OrganizationUser>) returns (orgsByUserID: map<string, seq<OU>>)
    ensures orgsByUserID == GroupMap(list, OrganizationMemberOf, ToOU)
  {
    orgsByUserID := map[];
    for i := 0 to |list|
      invariant orgsByUserID == GroupMap(list[..i], OrganizationMemberOf, ToOU)
    {
      assert list[..i + 1][..i] == list[..i];
      orgsByUserID := orgsByUserID[list[i].userID := Slice(orgsByUserID, list[i].userID) + [ToOU(list[i])]];
    }
    assert list[..|list|] == list;
  }

  method IndexProjects(list: seq<Project>)
    returns (projectsByID: map<string, P>, projectsByOrganizationID: map<string, seq<P>>)
    ensures projectsByID == LastMap(list, ProjectIDOf, ToP)
    ensures projectsByOrganizationID == GroupMap(list, ProjectOrganizationOf, ToP)
  {
    projectsByID, projectsByOrganizationID := map[], map[];
    for i := 0 to |list|
      invariant projectsByID == LastMap(list[..i], ProjectIDOf, ToP)
      invariant projectsByOrganizationID == GroupMap(list[..i], ProjectOrganizationOf, ToP)
    {
      assert list[..i + 1][..i] == list[..i];
      var oid, val := list[i].organizationID, ToP(list[i]);
      projectsByID := projectsByID[list[i].id := val];
      projectsByOrganizationID := projectsByOrganizationID[oid := Slice(projectsByOrganizationID, oid) + [val]];
    }
    assert list[..|list|] == list;
  }

  /** Whether the next project membership resolves, and what it then does to the slices built so far. */
  lemma NextProjectUser(up: Upstream, projectsByID: map<string, P>, n: nat)
    requires n < |up.projectUsers| && MembershipsResolve(up, n)
    requires projectsByID == LastMap(up.projects, ProjectIDOf, ToP)
    ensures var user := up.projectUsers[n];
            var m := GroupMap(up.projectUsers[..n], ProjectMemberOf, ToPU(up.projects));
            if user.projectID in projectsByID then
              && MembershipsResolve(up, n + 1)
              && GroupMap(up.projectUsers[..n + 1], ProjectMemberOf, ToPU(up.projects))
                 == m[user.userID := Slice(m, user.userID)
                                     + [PU(user.role, projectsByID[user.projectID], user.organizationID)]]
            else
              !ProjectUsersResolve(up) && Faults(up, ProjectNotFound(user.projectID, user.userID))
  {
    assert up.projectUsers[..n + 1][..n] == up.projectUsers[..n];
    LastMapReads(up.projects, ProjectIDOf, ToP, up.projectUsers[n].projectID);
    if up.projectUsers[n].projectID !in projectsByID {
      assert FirstDangling(up, n);
    }
  }

  /** Resolves every project membership against `projectsByID`, or stops at the first that names no project. */
  method IndexProjectUsers(up: Upstream, projectsByID: map<string, P>)
    returns (r: Result<map<string, seq<PU>>, UpdateError>)
    requires projectsByID == LastMap(up.projects, ProjectIDOf, ToP)
    ensures r.Ok? <==> ProjectUsersResolve(up)
    ensures r.Ok? ==> r.value == GroupMap(up.projectUsers, ProjectMemberOf, ToPU(up.projects))
    ensures r.Err? ==> Faults(up, r.error)
  {
    var list := up.projectUsers;
    var projectsByUserID: map<string, seq<PU>> := map[];
    for i := 0 to |list|
      invariant MembershipsResolve(up, i)
      invariant projectsByUserID == GroupMap(list[..i], ProjectMemberOf, ToPU(up.projects))
    {
      var user := list[i];
      NextProjectUser(up, projectsByID, i);
      if user.projectID !in projectsByID {
        return Err(ProjectNotFound(user.projectID, user.userID));
      }
      var member := PU(user.role, projectsByID[user.projectID], user.organizationID);
      projectsByUserID :=
        projectsByUserID[user.userID := Slice(projectsByUserID, user.userID) + [member]];
    }
    assert list[..|list|] == list;
    r := Ok(projectsByUserID);
  }

  /** The user record kept so far for `u` has the tenant of some earlier membership of `u`. */
  lemma KeptUser(up: Upstream, n: nat, u: string) returns (f: nat)
    requires n <= |up.organizationUsers|
    requires u in FirstMap(up.organizationUsers[..n], OrganizationMemberOf, ToU(up.organizations))
    requires MembersAgree(up, n)
    ensures f < n && up.organizationUsers[f].userID == u
    ensures TenantOf(up.organizations, up.organizationUsers[f].organizationID)
         == Some(FirstMap(up.organizationUsers[..n], OrganizationMemberOf, ToU(up.organizations))[u].tenantID)
  {
    var prefix := up.organizationUsers[..n];
    FirstMapReads(prefix, OrganizationMemberOf, ToU(up.organizations), u);
    f := FirstWithAt(prefix, OrganizationMemberOf, u);
    assert prefix[f] == up.organizationUsers[f] && OrganizationListed(up, f);
  }

  /** A user not kept so far has no earlier membership. */
  lemma NewUser(up: Upstream, n: nat, u: string)
    requires n <= |up.organizationUsers|
    requires u !in FirstMap(up.organizationUsers[..n], OrganizationMemberOf, ToU(up.organizations))
    ensures forall i | 0 <= i < n :: up.organizationUsers[i].userID != u
  {
    var prefix := up.organizationUsers[..n];
    forall i | 0 <= i < n ensures up.organizationUsers[i].userID != u {
      FirstMapReads(prefix, OrganizationMemberOf, ToU(up.organizations), u);
      assert prefix[i] == up.organizationUsers[i];
    }
  }

  /** Comparing with one earlier membership of the user is enough: equality of tenants is transitive. */
  lemma AgreeingMember(up: Upstream, n: nat, f: nat)
    requires f < n < |up.organizationUsers| && MembersAgree(up, n)
    requires up.organizationUsers[f].userID == up.organizationUsers[n].userID
    requires OrganizationListed(up, n)
    requires SameTenant(up, f, n)
    ensures MembersAgree(up, n + 1)
  {
    forall i | 0 <= i < n && up.organizationUsers[i].userID == up.organizationUsers[n].userID
      ensures SameTenant(up, i, n) && SameTenant(up, n, i)
    {
      assert SameTenant(up, i, f);
    }
  }

  /** What the next membership does to the users kept so far, and when it is admissible. */
  lemma NextUser(up: Upstream, n: nat)
    requires n < |up.organizationUsers| && MembersAgree(up, n) && OrganizationListed(up, n)
    ensures var users := FirstMap(up.organizationUsers[..n], OrganizationMemberOf, ToU(up.organizations));
            var user := up.organizationUsers[n];
            && FirstMap(up.organizationUsers[..n + 1], OrganizationMemberOf, ToU(up.organizations))
               == (if user.userID in users then users else users[user.userID := ToU(up.organizations)(user)])
            && (MembersAgree(up, n + 1) <==>
                  (user.userID in users ==>
                     TenantOf(up.organizations, user.organizationID) == Some(users[user.userID].tenantID)))
  {
    var user := up.organizationUsers[n];
    assert up.organizationUsers[..n + 1][..n] == up.organizationUsers[..n];
    if user.userID in FirstMap(up.organizationUsers[..n], OrganizationMemberOf, ToU(up.organizations)) {
      var f := KeptUser(up, n, user.userID);
      if SameTenant(up, f, n) {
        AgreeingMember(up, n, f);
      }
    } else {
      NewUser(up, n, user.userID);
    }
  }

  /** A membership that is not admissible makes the lists unacceptable, and is the one to report. */
  lemma BadMember(up: Upstream, n: nat)
    requires n < |up.organizationUsers| && ProjectUsersResolve(up)
    requires MembersAgree(up, n) && !MembersAgree(up, n + 1)
    ensures !(OrganizationUsersResolve(up) && OneTenantPerUser(up))
    ensures var m := up.organizationUsers[n];
            Faults(up, if OrganizationListed(up, n) then MultipleTenantIDs(m.userID)
                       else OrganizationNotFound(m.organizationID, m.userID))
  {
    assert FirstBadMember(up, n);
  }

  /** Keeps the first record of every user, or stops at the first membership that breaks the tenant rule. */
  method IndexUsers(up: Upstream, orgsByID: map<string, O>) returns (r: Result<map<string, U>, UpdateError>)
    requires orgsByID == LastMap(up.organizations, OrganizationIDOf, ToO)
    requires ProjectUsersResolve(up)
    ensures r.Ok? <==> OrganizationUsersResolve(up) && OneTenantPerUser(up)
    ensures r.Ok? ==> r.value == FirstMap(up.organizationUsers, OrganizationMemberOf, ToU(up.organizations))
    ensures r.Err? ==> Faults(up, r.error)
  {
    var list := up.organizationUsers;
    var usersByID: map<string, U> := map[];
    for i := 0 to |list|
      invariant MembersAgree(up, i)
      invariant usersByID == FirstMap(list[..i], OrganizationMemberOf, ToU(up.organizations))
    {
      var user := list[i];
      LastMapReads(up.organizations, OrganizationIDOf, ToO, user.organizationID);
      if user.organizationID !in orgsByID {
        assert !OrganizationListed(up, i);
        BadMember(up, i);
        return Err(OrganizationNotFound(user.organizationID, user.userID));
      }
      var o := orgsByID[user.organizationID];
      assert OrganizationListed(up, i);
      NextUser(up, i);
      if user.userID in usersByID {
        if usersByID[user.userID].tenantID != o.tenantID {
          BadMember(up, i);
          return Err(MultipleTenantIDs(user.userID));
        }
        continue;
      }
      usersByID := usersByID[user.userID := U(user.userID, user.internalUserID, o.tenantID)];
    }
    assert list[..|list|] == list;
    r := Ok(usersByID);
  }

  /** The part of an update that runs outside the lock: list, index, validate. */
  method Prepare(calls: Calls) returns (r: Result<Index, UpdateError>)
    ensures r.Ok? <==> calls.Succeeds()
    ensures r.Ok? ==> r.value == IndexOf(calls.Listed())
    ensures !calls.AllListed() ==> r == Err(ListFailed(calls.FirstFailure()))
    ensures calls.AllListed() && r.Err? ==> Faults(calls.Listed(), r.error)
  {
    if calls.apiKeys.Err? { return Err(ListFailed(calls.apiKeys.error)); }
    var m := IndexAPIKeys(calls.apiKeys.value);

    if calls.clusters.Err? { return Err(ListFailed(calls.clusters.error)); }
    var cs, csByTenantID := IndexClusters(calls.clusters.value);

    if calls.organizations.Err? { return Err(ListFailed(calls.organizations.error)); }
    if calls.organizationUsers.Err? { return Err(ListFailed(calls.organizationUsers.error)); }
    if calls.projects.Err? { return Err(ListFailed(calls.projects.error)); }
    if calls.projectUsers.Err? { return Err(ListFailed(calls.projectUsers.error)); }
    var up := calls.Listed();

    var orgsByID := IndexOrganizations(up.organizations);
    var orgsByUserID := IndexOrganizationUsers(up.organizationUsers);
    var projectsByID, projectsByOrganizationID := IndexProjects(up.projects);

    var projectsByUserID := IndexProjectUsers(up, projectsByID);
    if projectsByUserID.Err? { return Err(projectsByUserID.error); }
    var usersByID := IndexUsers(up, orgsByID);
    if usersByID.Err? { return Err(usersByID.error); }

    r := Ok(Index(m, cs, csByTenantID, orgsByID, orgsByUserID, projectsByID, projectsByOrganizationID,
                  projectsByUserID.value, usersByID.value));
  }

  class Store {
    var apiKeysBySecret: map<string, K>
    var clustersByRegistrationKey: map<string, C>
    var clustersByTenantID: map<string, seq<C>>
    var orgsByID: map<string, O>
    var orgsByUserID: map<string, seq<OU>>
    var projectsByID: map<string, P>
    var projectsByOrganizationID: map<string, seq<P>>
    var projectsByUserID: map<string, seq<PU>>
    var usersByID: map<string, U>
    var lastSuccessfulSyncTime: Option<int>
    // How often the initial-sync channel has been closed; closing it twice would panic.
    var initialSyncCloses: nat
    var synced: bool

    /** Every upstream answer committed so far, oldest first. */
    ghost var commits: seq<Upstream>

    function Contents(): Index
      reads this`apiKeysBySecret, this`clustersByRegistrationKey, this`clustersByTenantID, this`orgsByID,
            this`orgsByUserID, this`projectsByID, this`projectsByOrganizationID, this`projectsByUserID,
            this`usersByID
    {
      Index(apiKeysBySecret, clustersByRegistrationKey, clustersByTenantID, orgsByID, orgsByUserID,
            projectsByID, projectsByOrganizationID, projectsByUserID, usersByID)
    }

    function State(): StoreState
      reads this
    {
      StoreState(Contents(), synced, initialSyncCloses, lastSuccessfulSyncTime)
    }

    ghost predicate Valid()
      reads this
    {
      Sound(State(), commits)
    }

    constructor ()
      ensures Valid() && commits == [] && State() == NEW_STORE
    {
      apiKeysBySecret := map[];
      clustersByRegistrationKey, clustersByTenantID := map[], map[];
      orgsByID, orgsByUserID := map[], map[];
      projectsByID, projectsByOrganizationID, projectsByUserID := map[], map[], map[];
      usersByID := map[];
      lastSuccessfulSyncTime := None;
      initialSyncCloses, synced := 0, false;
      commits := [];
    }

    function GetAPIKeyBySecret(secret: string): Option<K>
      reads this
    {
      Lookup(apiKeysBySecret, secret)
    }

    function GetClusterByRegistrationKey(key: string): Option<C>
      reads this
    {
      Lookup(clustersByRegistrationKey, key)
    }

    function GetClustersByTenantID(tenantID: string): seq<C>
      reads this
    {
      Slice(clustersByTenantID, tenantID)
    }

    function GetOrganizationByID(organizationID: string): Option<O>
      reads this
    {
      Lookup(orgsByID, organizationID)
    }

    function GetOrganizationsByUserID(userID: string): seq<OU>
      reads this
    {
      Slice(orgsByUserID, userID)
    }

    function GetProjectsByOrganizationID(organizationID: string): seq<P>
      reads this
    {
      Slice(projectsByOrganizationID, organizationID)
    }

    function GetProjectByID(projectID: string): Option<P>
      reads this
    {
      Lookup(projectsByID, projectID)
    }

    function GetProjectsByUserID(userID: string): seq<PU>
      reads this
    {
      Slice(projectsByUserID, userID)
    }

    function GetUserByID(userID: string): Option<U>
      reads this
    {
      Lookup(usersByID, userID)
    }

    /** After a commit every getter reads the index of the lists committed last. */
    lemma GettersRead(key: string)
      requires Valid() && commits != []
      ensures var idx := IndexOf(commits[|commits| - 1]);
              && GetAPIKeyBySecret(key) == Lookup(idx.apiKeysBySecret, key)
              && GetClusterByRegistrationKey(key) == Lookup(idx.clustersByRegistrationKey, key)
              && GetClustersByTenantID(key) == Slice(idx.clustersByTenantID, key)
              && GetOrganizationByID(key) == Lookup(idx.orgsByID, key)
              && GetOrganizationsByUserID(key) == Slice(idx.orgsByUserID, key)
              && GetProjectsByOrganizationID(key) == Slice(idx.projectsByOrganizationID, key)
              && GetProjectByID(key) == Lookup(idx.projectsByID, key)
              && GetProjectsByUserID(key) == Slice(idx.projectsByUserID, key)
              && GetUserByID(key) == Lookup(idx.usersByID, key)
    {
      assert Contents() == IndexOf(commits[|commits| - 1]);
    }

    method Replace(idx: Index)
      modifies this`apiKeysBySecret, this`clustersByRegistrationKey, this`clustersByTenantID, this`orgsByID,
               this`orgsByUserID, this`projectsByID, this`projectsByOrganizationID, this`projectsByUserID,
               this`usersByID
      ensures Contents() == idx
    {
      apiKeysBySecret := idx.apiKeysBySecret;
      clustersByRegistrationKey := idx.clustersByRegistrationKey;
      clustersByTenantID := idx.clustersByTenantID;
      orgsByID := idx.orgsByID;
      orgsByUserID := idx.orgsByUserID;
      projectsByID := idx.projectsByID;
      projectsByOrganizationID := idx.projectsByOrganizationID;
      projectsByUserID := idx.projectsByUserID;
      usersByID := idx.usersByID;
    }

    /** The part of an update that runs under the lock: replace the content, signal the first sync. */
    method Commit(idx: Index, ghost up: Upstream, now: int)
      requires Valid()
      requires Accepted(up) && idx == IndexOf(up)
      modifies this
      ensures State() == AfterCommit(old(State()), up, now)
      ensures Valid() && commits == old(commits) + [up]
    {
      SoundCommit(State(), commits, up, now);
      ghost var next := AfterCommit(State(), up, now);
      Replace(idx);
      lastSuccessfulSyncTime := Some(now);
      if !synced {
        assert initialSyncCloses == 0;
        initialSyncCloses := initialSyncCloses + 1;
      }
      synced := true;
      assert State() == next;
      commits := commits + [up];
    }

    /** Succeeds exactly on complete, accepted lists; then the whole content is replaced, else nothing changes. */
    method UpdateCache(calls: Calls, now: int) returns (r: Result<(), UpdateError>)
      requires Valid()
      modifies this
      ensures Valid()
      ensures State() == AfterUpdate(old(State()), calls, now)
      ensures r.Ok? <==> calls.Succeeds()
      ensures r.Ok? ==> calls.Succeeds() && Contents() == IndexOf(calls.Listed())
      ensures r.Ok? ==> lastSuccessfulSyncTime == Some(now) && synced && initialSyncCloses == 1
      ensures r.Err? ==> State() == old(State())
      ensures commits == if calls.Succeeds() then old(commits) + [calls.Listed()] else old(commits)
      ensures !calls.AllListed() ==> r == Err(ListFailed(calls.FirstFailure()))
      ensures calls.AllListed() && r.Err? ==> Faults(calls.Listed(), r.error)
    {
      var prepared := Prepare(calls);
      if prepared.Err? {
        return Err(prepared.error);
      }
      Commit(prepared.value, calls.Listed(), now);
      r := Ok(());
    }
  }
}
