/** What holds of a response whose reads saw different generations of the cache, and exactly what does not. */
module TornReads {
  import opened Wrappers
  import opened Lists
  import opened Records
  import opened Indexes
  import opened KubernetesEnvs
  import opened Decision
  import opened Guarantees
  import opened Interleaving
  import SyncRuns

  // What survives torn reads.

  /** The content has, under the tenant, a cluster that `e` is an environment of. */
  ghost predicate OnClusterOf(idx: Index, tenantID: string, e: Env) {
    exists cluster | cluster in Slice(idx.clustersByTenantID, tenantID) :: e == At(cluster, e.namespace)
  }

  lemma LastReadEnvs(c: Call, at: Point, idx: Index, e: Env)
    requires !at.Done? && Next(c, at, idx).Done? && Next(c, at, idx).result.Ok?
    requires var r := Next(c, at, idx).result.value;
             r.project.Some? && e in r.project.value.assignedKubernetesEnvs
    ensures OnClusterOf(idx, Next(c, at, idx).result.value.tenantID, e)
  {
    var r := Next(c, at, idx).result.value;
    var p := if at.ReadKeyClusters? then at.p else if at.ReadClusters? then at.pr.project else NO_PROJECT;
    var clusters := Slice(idx.clustersByTenantID, r.tenantID);
    assert r.project.value.assignedKubernetesEnvs == Envs(p.kubernetesNamespace, p.assignments, clusters);
    var cluster := EnvNamesCluster(Shared(p.kubernetesNamespace, p.assignments), Own(p.assignments), clusters, e);
  }

  lemma {:induction false} ReplayEnvs(c: Call, views: seq<Index>, e: Env) returns (i: nat)
    requires Replay(c, views).Done? && Replay(c, views).result.Ok?
    requires var r := Replay(c, views).result.value;
             r.project.Some? && e in r.project.value.assignedKubernetesEnvs
    ensures i < |views| && OnClusterOf(views[i], Replay(c, views).result.value.tenantID, e)
  {
    var n := |views| - 1;
    var at := Replay(c, views[..n]);
    if at.Done? {
      i := ReplayEnvs(c, views[..n], e);
      assert views[..n][i] == views[i];
    } else {
      i := n;
      LastReadEnvs(c, at, views[n], e);
    }
  }

  /** The lists that the `i`th read of the request saw, when a commit preceded it. */
  ghost function SeenBy(events: seq<Event>, i: nat): Option<Upstream> {
    var gens := Generations(events);
    if i < |gens| && 0 < gens[i] <= |History(events)| then Some(History(events)[gens[i] - 1]) else None
  }

  lemma GenerationCluster(history: seq<Upstream>, n: nat, tenantID: string, e: Env)
    requires n <= |history| && OnClusterOf(SyncRuns.Generation(history, n), tenantID, e)
    ensures n > 0 && OnUpstreamCluster(history[n - 1], tenantID, e)
  {
    var idx := SyncRuns.Generation(history, n);
    var cluster :| cluster in Slice(idx.clustersByTenantID, tenantID) && e == At(cluster, e.namespace);
    CachedIsUpstream(history[n - 1], tenantID, cluster, e);
  }

  /** Every environment of an interleaved response is on a cluster that some committed lists have under its tenant. */
  lemma TornEnvs(c: Call, events: seq<Event>, r: Response, e: Env)
    requires After(c, events) == Done(Ok(r))
    requires r.project.Some? && e in r.project.value.assignedKubernetesEnvs
    ensures exists i: nat | SeenBy(events, i).Some? :: OnUpstreamCluster(SeenBy(events, i).value, r.tenantID, e)
  {
    InterleavedIsReplay(c, events);
    var i := ReplayEnvs(c, Views(History(events), Generations(events)), e);
    GenerationCluster(History(events), Generations(events)[i], r.tenantID, e);
    assert SeenBy(events, i).Some?;
  }

  // Which reads settle the tenant and the organization of a response.

  /** The user of a request whose token is that of a user. */
  function UserOf(c: Call): string {
    if c.answer.Active? then c.config.normalize(c.answer.email) else ""
  }

  /** The second read found this caller. */
  ghost predicate CallerRead(c: Call, views: seq<Index>, who: Caller) {
    && |views| >= 2
    && who.userID == UserOf(c)
    && Lookup(views[1].usersByID, UserOf(c)) == Some(who.u)
  }

  /** And the fourth read found these memberships. */
  ghost predicate MembershipsRead(c: Call, views: seq<Index>, who: Caller, userOrgs: seq<OU>) {
    CallerRead(c, views, who) && |views| >= 4 && userOrgs == Slice(views[3].orgsByUserID, UserOf(c))
  }

  /** The second read found the user with this tenant, and the fourth a role of the user in this organization. */
  ghost predicate Settled(c: Call, views: seq<Index>, tenantID: string, organizationID: string) {
    && |views| >= 4
    && Lookup(views[1].usersByID, UserOf(c)).Some?
    && views[1].usersByID[UserOf(c)].tenantID == tenantID
    && OrganizationRoleIn(Slice(views[3].orgsByUserID, UserOf(c)), organizationID) != OrgRoleUnspecified
  }

  ghost predicate RoleRead(c: Call, views: seq<Index>, who: Caller, p: P) {
    CallerRead(c, views, who) && Settled(c, views, who.u.tenantID, p.organizationID)
  }

  /** Where a request that found no API key can be after reading `views`. */
  ghost predicate Traced(c: Call, at: Point, views: seq<Index>) {
    match at
    case ReadKey => views == []
    case ReadUser(userID) => |views| == 1 && userID == UserOf(c)
    case ReadUserProjects(who) => |views| == 2 && CallerRead(c, views, who)
    case ReadUserOrganizations(who, _) => |views| == 3 && CallerRead(c, views, who)
    case ReadNamedProject(who, _, userOrgs) => MembershipsRead(c, views, who, userOrgs)
    case ReadNamedOrganization(who, _, userOrgs) => MembershipsRead(c, views, who, userOrgs)
    case ReadItsProjects(who, _, userOrgs) => MembershipsRead(c, views, who, userOrgs)
    case ReadEachOrganization(who, _, userOrgs, _, _) => MembershipsRead(c, views, who, userOrgs)
    case ReadProjectOrganization(who, pr) => RoleRead(c, views, who, pr.project)
    case ReadClusters(who, pr, _) => RoleRead(c, views, who, pr.project)
    case Done(Ok(r)) => r.organization.Some? ==> Settled(c, views, r.tenantID, r.organization.value.id)
    case Done(Err(_)) => true
    case _ => false
  }

  lemma ProjectTraced(
    c: Call, views: seq<Index>, who: Caller, userProjects: seq<PU>, userOrgs: seq<OU>, selected: Option<P>)
    requires MembershipsRead(c, views, who, userOrgs)
    ensures Traced(c, WithProject(who, userProjects, userOrgs, selected), views)
  {
  }

  /** A read after the fourth keeps what the second and the fourth found. */
  lemma LaterReadTraced(c: Call, at: Point, before: seq<Index>, idx: Index)
    requires Traced(c, at, before)
    requires at.ReadNamedProject? || at.ReadNamedOrganization? || at.ReadItsProjects? || at.ReadEachOrganization?
    ensures Traced(c, Next(c, at, idx), before + [idx])
  {
    var views := before + [idx];
    assert MembershipsRead(c, views, at.who, at.userOrgs);
    match at
    case ReadNamedProject(who, userProjects, userOrgs) =>
      ProjectTraced(c, views, who, userProjects, userOrgs, Lookup(idx.projectsByID, c.req.projectID));
    case ReadNamedOrganization(_, _, _) =>
    case ReadItsProjects(who, userProjects, userOrgs) =>
      ProjectTraced(c, views, who, userProjects, userOrgs,
                    PickProject(CandidatesIn(idx, c.req.organizationID, userProjects)));
    case ReadEachOrganization(who, userProjects, userOrgs, n, projects) =>
      if n < |userOrgs| {
        ProjectTraced(c, views, who, userProjects, userOrgs,
                      PickProject(projects + Slice(idx.projectsByOrganizationID, userOrgs[n].organizationID)));
      }
  }

  lemma NextTraced(c: Call, at: Point, before: seq<Index>, idx: Index)
    requires Traced(c, at, before) && !NotProjectScoped(c.req)
    requires at.ReadKey? ==> c.req.token !in idx.apiKeysBySecret
    ensures Traced(c, Next(c, at, idx), before + [idx])
  {
    if at.ReadNamedProject? || at.ReadNamedOrganization? || at.ReadItsProjects? || at.ReadEachOrganization? {
      LaterReadTraced(c, at, before, idx);
    } else if at.ReadUserOrganizations? {
      assert MembershipsRead(c, before + [idx], at.who, Slice(idx.orgsByUserID, UserOf(c)));
      ProjectTraced(c, before + [idx], at.who, at.userProjects, Slice(idx.orgsByUserID, UserOf(c)),
                    PickProject(Map(at.userProjects, MembershipProjectOf)));
    }
  }

  /** Whatever its reads see: the second settles the tenant of a response, and the fourth its organization. */
  lemma {:induction false} ReplayTraced(c: Call, views: seq<Index>)
    requires !NotProjectScoped(c.req)
    requires views != [] ==> c.req.token !in views[0].apiKeysBySecret
    ensures Traced(c, Replay(c, views), views)
  {
    if views != [] {
      var before := views[..|views| - 1];
      ReplayTraced(c, before);
      assert views == before + [views[|views| - 1]];
      NextTraced(c, Replay(c, before), before, views[|views| - 1]);
    }
  }

  // Tenants under torn reads.

  lemma UserRecord(up: Upstream, userID: string)
    requires Accepted(up)
    ensures var u := Lookup(IndexOf(up).usersByID, userID);
            UserTenant(up, userID) == (if u.Some? then Some(u.value.tenantID) else None)
  {
    UserRead(up, userID);
    if FirstWith(up.organizationUsers, OrganizationMemberOf, userID).Some? {
      var i := FirstWithAt(up.organizationUsers, OrganizationMemberOf, userID);
      assert OrganizationListed(up, i);
    }
  }

  /** An organization in which the user has a role is of the user's tenant. */
  lemma RoleTenant(up: Upstream, userID: string, organizationID: string)
    requires Accepted(up)
    requires OrganizationRoleIn(Slice(IndexOf(up).orgsByUserID, userID), organizationID) != OrgRoleUnspecified
    ensures UserTenant(up, userID).Some?
    ensures TenantOf(up.organizations, organizationID) == UserTenant(up, userID)
  {
    var i := RoleIsListed(Slice(IndexOf(up).orgsByUserID, userID), organizationID);
    OrganizationMembershipOf(up, userID, i);
    OrganizationRead(up, organizationID);
    UserRecord(up, userID);
  }

  /** The request's first read found its token among the API keys. */
  ghost predicate CameWithKey(c: Call, events: seq<Event>) {
    var gens := Generations(events);
    && gens != []
    && gens[0] <= |History(events)|
    && c.req.token in SyncRuns.Generation(History(events), gens[0]).apiKeysBySecret
  }

  lemma SeenIsCommitted(events: seq<Event>, i: nat) returns (k: nat)
    requires SeenBy(events, i).Some?
    ensures k < |History(events)| && History(events)[k] == SeenBy(events, i).value
    ensures Accepted(SeenBy(events, i).value)
  {
    SyncRuns.RunInvariant(Updates(events));
    k := Generations(events)[i] - 1;
  }

  /** The response is about an organization of the tenant it reports, as the lists `up` have it. */
  ghost predicate CoherentIn(up: Upstream, r: Response) {
    r.organization.Some? && TenantOf(up.organizations, r.organization.value.id) == Some(r.tenantID)
  }

  lemma SettledTenants(c: Call, events: seq<Event>, tenantID: string, organizationID: string)
    requires Bounded(Generations(events), |History(events)|)
    requires Settled(c, Views(History(events), Generations(events)), tenantID, organizationID)
    ensures SeenBy(events, 1).Some? && SeenBy(events, 3).Some?
    ensures UserTenant(SeenBy(events, 1).value, UserOf(c)) == Some(tenantID)
    ensures UserTenant(SeenBy(events, 3).value, UserOf(c)).Some?
    ensures TenantOf(SeenBy(events, 3).value.organizations, organizationID)
         == UserTenant(SeenBy(events, 3).value, UserOf(c))
  {
    var gens := Generations(events);
    assert gens[1] > 0 && gens[3] > 0;
    var a := SeenIsCommitted(events, 1);
    var b := SeenIsCommitted(events, 3);
    UserRecord(SeenBy(events, 1).value, UserOf(c));
    RoleTenant(SeenBy(events, 3).value, UserOf(c), organizationID);
  }

  /**
   However commits fall between the reads, a response to a user that names an organization reports the tenant that
   the user had at the second read, and an organization that was of the user's tenant at the fourth. So it is
   coherent in the lists of the fourth read exactly when the user's tenant was still the same there.
   */
  lemma TornCoherenceExactly(c: Call, events: seq<Event>, r: Response)
    requires !NotProjectScoped(c.req) && !CameWithKey(c, events)
    requires After(c, events) == Done(Ok(r)) && r.organization.Some?
    ensures SeenBy(events, 1).Some? && SeenBy(events, 3).Some?
    ensures var a, b := SeenBy(events, 1).value, SeenBy(events, 3).value;
            && UserTenant(a, UserOf(c)) == Some(r.tenantID)
            && UserTenant(b, UserOf(c)).Some?
            && TenantOf(b.organizations, r.organization.value.id) == UserTenant(b, UserOf(c))
            && (CoherentIn(b, r) <==> UserTenant(a, UserOf(c)) == UserTenant(b, UserOf(c)))
  {
    InterleavedIsReplay(c, events);
    ReplayTraced(c, Views(History(events), Generations(events)));
    SettledTenants(c, events, r.tenantID, r.organization.value.id);
  }

  /** No commit changes the tenant of a user or of an organization that an earlier one has. */
  ghost predicate TenantsStable(history: seq<Upstream>) {
    forall i, j | 0 <= i < |history| && 0 <= j < |history| :: SameTenants(history[i], history[j])
  }

  ghost predicate SameTenants(a: Upstream, b: Upstream) {
    && (forall u | UserTenant(a, u).Some? && UserTenant(b, u).Some? :: UserTenant(a, u) == UserTenant(b, u))
    && (forall o | TenantOf(a.organizations, o).Some? && TenantOf(b.organizations, o).Some? ::
          TenantOf(a.organizations, o) == TenantOf(b.organizations, o))
  }

  lemma StableOrganization(history: seq<Upstream>, i: nat, j: nat, organizationID: string)
    requires TenantsStable(history) && i < |history| && j < |history|
    requires TenantOf(history[i].organizations, organizationID).Some?
    requires TenantOf(history[j].organizations, organizationID).Some?
    ensures TenantOf(history[i].organizations, organizationID) == TenantOf(history[j].organizations, organizationID)
  {
    assert SameTenants(history[i], history[j]);
  }

  lemma StableUser(history: seq<Upstream>, i: nat, j: nat, userID: string)
    requires TenantsStable(history) && i < |history| && j < |history|
    requires UserTenant(history[i], userID).Some? && UserTenant(history[j], userID).Some?
    ensures UserTenant(history[i], userID) == UserTenant(history[j], userID)
  {
    assert SameTenants(history[i], history[j]);
  }

  ghost predicate CoherentThroughout(history: seq<Upstream>, r: Response)
    requires r.organization.Some?
  {
    && (exists i | 0 <= i < |history| :: CoherentIn(history[i], r))
    && (forall i | 0 <= i < |history| && TenantOf(history[i].organizations, r.organization.value.id).Some? ::
          CoherentIn(history[i], r))
  }

  lemma StableResponse(history: seq<Upstream>, a: nat, b: nat, userID: string, r: Response)
    requires TenantsStable(history) && a < |history| && b < |history| && r.organization.Some?
    requires UserTenant(history[a], userID) == Some(r.tenantID) && UserTenant(history[b], userID).Some?
    requires TenantOf(history[b].organizations, r.organization.value.id) == UserTenant(history[b], userID)
    ensures CoherentThroughout(history, r)
  {
    StableUser(history, a, b, userID);
    assert CoherentIn(history[b], r);
    forall i | 0 <= i < |history| && TenantOf(history[i].organizations, r.organization.value.id).Some?
      ensures CoherentIn(history[i], r)
    {
      StableOrganization(history, i, b, r.organization.value.id);
    }
  }

  /**
   While the tenants of users and organizations do not change, a response to a user names only an organization of
   the tenant it reports, in every commit that has this organization, and some commit has it.
   */
  lemma TornTenantCoherence(c: Call, events: seq<Event>, r: Response)
    requires TenantsStable(History(events)) && !NotProjectScoped(c.req) && !CameWithKey(c, events)
    requires After(c, events) == Done(Ok(r)) && r.organization.Some?
    ensures CoherentThroughout(History(events), r)
  {
    TornCoherenceExactly(c, events, r);
    var a := SeenIsCommitted(events, 1);
    var b := SeenIsCommitted(events, 3);
    StableResponse(History(events), a, b, UserOf(c), r);
  }

  // A run in which it happens.

  /** One user, owner of the one organization, with one project; all of the given tenant. */
  function World(tenantID: string): Upstream {
    Upstream(
      [], [],
      [Organization("o", "", false, tenantID)],
      [OrganizationUser("u", "i", "o", OrgRoleOwner)],
      [Project("p", "", "o", "", [], false)],
      [])
  }

  lemma WorldReads(tenantID: string)
    ensures Accepted(World(tenantID))
    ensures UserTenant(World(tenantID), "u") == Some(tenantID)
    ensures TenantOf(World(tenantID).organizations, "o") == Some(tenantID)
    ensures ProjectNamed(World(tenantID).projects, "p") == Some(P("p", "", "o", "", [], false))
    ensures Lookup(IndexOf(World(tenantID)).orgsByID, "o").Some?
  {
    var up := World(tenantID);
    assert TenantOf(up.organizations, "o") == Some(tenantID);
    OrganizationRead(up, "o");
  }

  lemma WorldRole(tenantID: string)
    ensures |Slice(IndexOf(World(tenantID)).orgsByUserID, "u")| == 1
    ensures OrganizationRoleIn(Slice(IndexOf(World(tenantID)).orgsByUserID, "u"), "o") == OrgRoleOwner
  {
    var up := World(tenantID);
    OrganizationMembersRead(up, "u");
    var m := up.organizationUsers[0];
    assert up.organizationUsers == [] + [m];
    GroupSnoc([], m, OrganizationMemberOf, ToOU, "u");
    assert Group([], OrganizationMemberOf, ToOU, "u") == [];
    assert Slice(IndexOf(up).orgsByUserID, "u") == [ToOU(m)];
    assert FirstWith([ToOU(m)], RoleOrganizationOf, "o") == Some(ToOU(m));
  }

  function CallsFor(up: Upstream): SyncRuns.Calls {
    SyncRuns.Calls(Ok(up.apiKeys), Ok(up.clusters), Ok(up.organizations), Ok(up.organizationUsers),
                   Ok(up.projects), Ok(up.projectUsers))
  }

  lemma ThenUpdate(events: seq<Event>, up: Upstream) returns (longer: seq<Event>)
    requires Accepted(up)
    ensures History(longer) == History(events) + [up]
    ensures Generations(longer) == Generations(events)
  {
    var fetch, commit := SyncRuns.Fetch(0, CallsFor(up)), SyncRuns.Commit(0, 0);
    var once := events + [Sync(fetch)];
    longer := once + [Sync(commit)];
    var updates := Updates(events);
    assert once[..|events|] == events && longer[..|once|] == once;
    assert (updates + [fetch])[..|updates|] == updates;
    assert (updates + [fetch] + [commit])[..|updates| + 1] == updates + [fetch];
    assert Updates(once) == updates + [fetch] && Updates(longer) == updates + [fetch] + [commit];
    assert CallsFor(up).Listed() == up;
    assert 0 in SyncRuns.Run(updates + [fetch]).pending;
    assert SyncRuns.Commits(updates + [fetch]) == SyncRuns.Commits(updates);
  }

  lemma ThenRead(events: seq<Event>)
    ensures History(events + [Read]) == History(events)
    ensures Generations(events + [Read]) == Generations(events) + [|History(events)|]
  {
    assert (events + [Read])[..|events|] == events;
    assert Updates(events + [Read]) == Updates(events);
  }

  lemma {:induction false} ThenReads(events: seq<Event>, n: nat) returns (longer: seq<Event>)
    ensures History(longer) == History(events)
    ensures Generations(longer) == Generations(events) + seq(n, _ => |History(events)|)
  {
    if n == 0 {
      longer := events;
    } else {
      var before := ThenReads(events, n - 1);
      longer := before + [Read];
      ThenRead(before);
      var h := |History(events)|;
      assert seq(n, _ => h) == seq(n - 1, _ => h) + [h];
    }
  }

  lemma TwoReads(c: Call, views: seq<Index>, a: Upstream, u: U)
    requires |views| == 2 && views[0] == views[1] == IndexOf(a)
    requires MissingArgument(c.req).None? && c.answer.Active? && !NotProjectScoped(c.req)
    requires c.req.token !in IndexOf(a).apiKeysBySecret
    requires Lookup(IndexOf(a).usersByID, UserOf(c)) == Some(u)
    ensures Replay(c, views) == ReadUserProjects(Caller(UserOf(c), u))
  {
    assert views == [views[0]] + [views[1]] && [views[0]] == [] + [views[0]];
    ReplaySnoc(c, [views[0]], views[1]);
    ReplaySnoc(c, [], views[0]);
  }

  /** What a request gets whose first two reads see one world, and the others the other. */
  lemma TornReplay(c: Call, views: seq<Index>, before: string, after: string)
    requires c.req == Request("token", "resource", "read", "", "p")
    requires c.answer.Active? && c.config.normalize(c.answer.email) == "u"
    requires |views| == 10 && views[0] == views[1] == IndexOf(World(before))
    requires forall i | 2 <= i < 10 :: views[i] == IndexOf(World(after))
    ensures Replay(c, views).Done? && Replay(c, views).result.Ok?
    ensures Replay(c, views).result.value.organization.Some?
    ensures Replay(c, views).result.value.organization.value.id == "o"
    ensures Replay(c, views).result.value.tenantID == before
  {
    var a, b := World(before), World(after);
    WorldReads(before);
    WorldReads(after);
    WorldRole(after);
    UserRecord(a, "u");
    TwoReads(c, views[..2], a, IndexOf(a).usersByID["u"]);
    ProjectRead(b, "p");
    SuffixFinishes(c, views, 2, IndexOf(b));
  }

  /** A run with two reads after the first of two commits, and eight after the second. */
  lemma TornRun(a: Upstream, b: Upstream) returns (events: seq<Event>)
    requires Accepted(a) && Accepted(b)
    ensures History(events) == [a, b]
    ensures Generations(events) == seq(2, _ => 1) + seq(8, _ => 2)
  {
    events := ThenUpdate([], a);
    assert History(events) == [a] && Generations(events) == [];
    events := ThenReads(events, 2);
    assert Generations(events) == seq(2, _ => 1);
    events := ThenUpdate(events, b);
    assert History(events) == [a, b];
    events := ThenReads(events, 8);
  }

  lemma TornViews(history: seq<Upstream>, gens: seq<nat>)
    requires |history| == 2 && gens == seq(2, _ => 1) + seq(8, _ => 2)
    ensures Bounded(gens, 2)
    ensures var views := Views(history, gens);
            && |views| == 10 && views[0] == views[1] == IndexOf(history[0])
            && forall i | 2 <= i < 10 :: views[i] == IndexOf(history[1])
  {
  }

  /** There is a run in which the whole world moves to another tenant between two reads and the response mixes both. */
  lemma TornResponse(c: Call, before: string, after: string) returns (events: seq<Event>)
    requires before != after
    requires c.req == Request("token", "resource", "read", "", "p")
    requires c.answer.Active? && c.config.normalize(c.answer.email) == "u"
    ensures History(events) == [World(before), World(after)]
    ensures After(c, events).Done? && After(c, events).result.Ok?
    ensures var r := After(c, events).result.value;
            && r.organization.Some? && r.tenantID == before
            && TenantOf(World(after).organizations, r.organization.value.id) == Some(after)
  {
    WorldReads(before);
    WorldReads(after);
    events := TornRun(World(before), World(after));
    InterleavedIsReplay(c, events);
    TornViews(History(events), Generations(events));
    TornReplay(c, Views(History(events), Generations(events)), before, after);
  }
}
