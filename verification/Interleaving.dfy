/**
 Requests and updates interleaved. Every getter takes the lock for itself, so the reads of one request can see
 different generations of the cache. A request is a machine that makes one read per step; a run interleaves its
 reads with the fetches and commits of updates.
 */
module Interleaving {
  import opened Wrappers
  import opened Lists
  import opened Records
  import opened Indexes
  import opened Decision
  import SyncRuns

  datatype Call = Call(config: Config, req: Request, answer: Introspection)

  /** The user a request is for once its token has been introspected, with the cached record of that user. */
  datatype Caller = Caller(userID: string, u: U)

  /** Where a request is: the next read to make, and the local variables read so far. */
  datatype Point =
    | ReadKey
    | ReadKeyProject(k: K)
    | ReadKeyOrganization(k: K, p: P)
    | ReadKeyClusters(k: K, p: P, o: O)
    | ReadUser(userID: string)
    | ReadUserProjects(who: Caller)
    | ReadUserOrganizations(who: Caller, userProjects: seq<PU>)
    | ReadNamedProject(who: Caller, userProjects: seq<PU>, userOrgs: seq<OU>)
    | ReadNamedOrganization(who: Caller, userProjects: seq<PU>, userOrgs: seq<OU>)
    | ReadItsProjects(who: Caller, userProjects: seq<PU>, userOrgs: seq<OU>)
    | ReadEachOrganization(who: Caller, userProjects: seq<PU>, userOrgs: seq<OU>, n: nat, projects: seq<P>)
    | ReadProjectOrganization(who: Caller, pr: ProjectAndRoles)
    | ReadClusters(who: Caller, pr: ProjectAndRoles, o: O)
    | Done(result: Result<Response, StatusError>)

  const REFUSED := Done(Ok(DENIED))

  function Start(c: Call): Point {
    match MissingArgument(c.req)
    case Some(e) => Done(Err(e))
    case None => ReadKey
  }

  function WithProject(who: Caller, userProjects: seq<PU>, userOrgs: seq<OU>, selected: Option<P>): Point {
    match selected
    case None => REFUSED
    case Some(p) =>
      match RolesOn(p, userProjects, userOrgs)
      case None => REFUSED
      case Some(pr) => ReadProjectOrganization(who, pr)
  }

  function WithMemberships(c: Call, who: Caller, userProjects: seq<PU>, userOrgs: seq<OU>): Point {
    if c.req.projectID != "" then ReadNamedProject(who, userProjects, userOrgs)
    else if c.req.organizationID != "" then ReadNamedOrganization(who, userProjects, userOrgs)
    else WithOrganizations(who, userProjects, userOrgs, 0, Map(userProjects, MembershipProjectOf))
  }

  function WithOrganizations(
    who: Caller, userProjects: seq<PU>, userOrgs: seq<OU>, n: nat, projects: seq<P>): Point
  {
    if n < |userOrgs| then ReadEachOrganization(who, userProjects, userOrgs, n, projects)
    else WithProject(who, userProjects, userOrgs, PickProject(projects))
  }

  function WithoutKey(c: Call): Point {
    match c.answer
    case IntrospectionFailed(message) => Done(Err(Internal(message)))
    case Inactive => REFUSED
    case Active(email) => ReadUser(c.config.normalize(email))
  }

  /** One read, on the content the cache has at that moment, and the work up to the next read. */
  function Next(c: Call, at: Point, idx: Index): Point {
    match at
    case ReadKey =>
      (match Lookup(idx.apiKeysBySecret, c.req.token)
       case Some(k) => ReadKeyProject(k)
       case None => WithoutKey(c))
    case ReadKeyProject(k) =>
      (match Lookup(idx.projectsByID, k.projectID)
       case Some(p) => ReadKeyOrganization(k, p)
       case None => REFUSED)
    case ReadKeyOrganization(k, p) =>
      (match Lookup(idx.orgsByID, k.organizationID)
       case Some(o) => ReadKeyClusters(k, p, o)
       case None => REFUSED)
    case ReadKeyClusters(k, p, o) =>
      Done(Ok(KeyResponse(c.config, c.req, k, p, o, Slice(idx.clustersByTenantID, k.tenantID))))
    case ReadUser(userID) =>
      (match Lookup(idx.usersByID, userID)
       case Some(u) =>
         if NotProjectScoped(c.req) then Done(Ok(UserOnlyResponse(userID, u)))
         else ReadUserProjects(Caller(userID, u))
       case None => REFUSED)
    case ReadUserProjects(who) =>
      ReadUserOrganizations(who, Slice(idx.projectsByUserID, who.userID))
    case ReadUserOrganizations(who, userProjects) =>
      WithMemberships(c, who, userProjects, Slice(idx.orgsByUserID, who.userID))
    case ReadNamedProject(who, userProjects, userOrgs) =>
      var p := Lookup(idx.projectsByID, c.req.projectID);
      if p.None? || (c.req.organizationID != "" && c.req.organizationID != p.value.organizationID) then REFUSED
      else WithProject(who, userProjects, userOrgs, p)
    case ReadNamedOrganization(who, userProjects, userOrgs) =>
      if c.req.organizationID in idx.orgsByID then ReadItsProjects(who, userProjects, userOrgs) else REFUSED
    case ReadItsProjects(who, userProjects, userOrgs) =>
      WithProject(who, userProjects, userOrgs,
                  PickProject(CandidatesIn(idx, c.req.organizationID, userProjects)))
    case ReadEachOrganization(who, userProjects, userOrgs, n, projects) =>
      if n < |userOrgs| then
        WithOrganizations(who, userProjects, userOrgs, n + 1,
                          projects + Slice(idx.projectsByOrganizationID, userOrgs[n].organizationID))
      else REFUSED
    case ReadProjectOrganization(who, pr) =>
      (match Lookup(idx.orgsByID, pr.project.organizationID)
       case Some(o) => ReadClusters(who, pr, o)
       case None => REFUSED)
    case ReadClusters(who, pr, o) =>
      Done(Ok(UserResponse(c.config, c.req, who.userID, who.u, pr, o,
                           Slice(idx.clustersByTenantID, who.u.tenantID))))
    case Done(_) => at
  }

  /** A request whose reads see these contents of the cache, in this order. */
  function Replay(c: Call, views: seq<Index>): Point {
    if views == [] then Start(c)
    else Next(c, Replay(c, views[..|views| - 1]), views[|views| - 1])
  }

  // Interleaved runs.

  datatype Event =
    | Sync(event: SyncRuns.Event)
    | Read

  /** The updates of a run, without the reads of the request. */
  function Updates(events: seq<Event>): seq<SyncRuns.Event> {
    if events == [] then []
    else
      var n := |events| - 1;
      Updates(events[..n]) + (if events[n].Sync? then [events[n].event] else [])
  }

  ghost function History(events: seq<Event>): seq<Upstream> {
    SyncRuns.Commits(Updates(events))
  }

  /** Where the request is after the run. */
  ghost function After(c: Call, events: seq<Event>): Point {
    if events == [] then Start(c)
    else
      var before := events[..|events| - 1];
      if events[|events| - 1].Sync? then After(c, before)
      else Next(c, After(c, before), SyncRuns.Run(Updates(before)).store.index)
  }

  /** How many commits preceded each read. */
  ghost function Generations(events: seq<Event>): seq<nat> {
    if events == [] then []
    else
      var before := events[..|events| - 1];
      if events[|events| - 1].Sync? then Generations(before) else Generations(before) + [|History(before)|]
  }

  ghost predicate Bounded(gens: seq<nat>, n: nat) {
    forall i | 0 <= i < |gens| :: gens[i] <= n
  }

  ghost predicate NonDecreasing(gens: seq<nat>) {
    forall i, j | 0 <= i < j < |gens| :: gens[i] <= gens[j]
  }

  ghost function Views(history: seq<Upstream>, gens: seq<nat>): seq<Index>
    requires Bounded(gens, |history|)
  {
    seq(|gens|, i requires 0 <= i < |gens| => SyncRuns.Generation(history, gens[i]))
  }

  lemma HistoryGrows(events: seq<Event>)
    requires events != []
    ensures History(events[..|events| - 1]) <= History(events)
  {
    var before := events[..|events| - 1];
    if events[|events| - 1].Sync? {
      assert Updates(events)[..|Updates(before)|] == Updates(before);
      SyncRuns.CommitsGrow(Updates(events), |Updates(before)|);
    } else {
      assert Updates(events) == Updates(before);
    }
  }

  lemma {:induction false} GenerationsOrdered(events: seq<Event>)
    ensures Bounded(Generations(events), |History(events)|)
    ensures NonDecreasing(Generations(events))
  {
    if events != [] {
      GenerationsOrdered(events[..|events| - 1]);
      HistoryGrows(events);
    }
  }

  /** Later commits do not change the generations that earlier reads saw. */
  lemma ViewsKept(before: seq<Upstream>, history: seq<Upstream>, gens: seq<nat>)
    requires before <= history && Bounded(gens, |before|)
    ensures Bounded(gens, |history|) && Views(history, gens) == Views(before, gens)
  {
  }

  lemma ViewsSnoc(history: seq<Upstream>, gens: seq<nat>, n: nat)
    requires Bounded(gens, |history|) && n <= |history|
    ensures Bounded(gens + [n], |history|)
    ensures Views(history, gens + [n]) == Views(history, gens) + [SyncRuns.Generation(history, n)]
  {
  }

  /** Every interleaved request is a replay of its reads over a non-decreasing sequence of committed generations. */
  lemma {:induction false} InterleavedIsReplay(c: Call, events: seq<Event>)
    ensures Bounded(Generations(events), |History(events)|) && NonDecreasing(Generations(events))
    ensures After(c, events) == Replay(c, Views(History(events), Generations(events)))
  {
    GenerationsOrdered(events);
    if events != [] {
      var before := events[..|events| - 1];
      GenerationsOrdered(before);
      InterleavedIsReplay(c, before);
      var history, gens := History(before), Generations(before);
      if events[|events| - 1].Sync? {
        HistoryGrows(events);
        ViewsKept(history, History(events), gens);
      } else {
        assert Updates(events) == Updates(before);
        SyncRuns.RunInvariant(Updates(before));
        ViewsSnoc(history, gens, |history|);
        ReplaySnoc(c, Views(history, gens), SyncRuns.Generation(history, |history|));
      }
    }
  }

  lemma ReplaySnoc(c: Call, views: seq<Index>, idx: Index)
    ensures Replay(c, views + [idx]) == Next(c, Replay(c, views), idx)
  {
    assert (views + [idx])[..|views|] == views;
  }

  // With no commit in between, the answer is the atomic decision.

  lemma {:induction false} ProjectsOfConcat(byOrganization: map<string, seq<P>>, a: seq<OU>, b: seq<OU>)
    ensures ProjectsOfOrganizations(byOrganization, a + b)
         == ProjectsOfOrganizations(byOrganization, a) + ProjectsOfOrganizations(byOrganization, b)
  {
    if b == [] {
      assert a + b == a;
    } else {
      var n := |b| - 1;
      assert (a + b)[..|a| + n] == a + b[..n];
      ProjectsOfConcat(byOrganization, a, b[..n]);
    }
  }

  function OutcomeWithProject(
    c: Call, idx: Index, who: Caller, userProjects: seq<PU>, userOrgs: seq<OU>, selected: Option<P>): Response
  {
    var at := WithProject(who, userProjects, userOrgs, selected);
    if at.Done? then DENIED else OutcomeWithRoles(c, idx, who, at.pr)
  }

  function OutcomeWithRoles(c: Call, idx: Index, who: Caller, pr: ProjectAndRoles): Response {
    match Lookup(idx.orgsByID, pr.project.organizationID)
    case None => DENIED
    case Some(o) =>
      UserResponse(c.config, c.req, who.userID, who.u, pr, o, Slice(idx.clustersByTenantID, who.u.tenantID))
  }

  function OutcomeWithMemberships(
    c: Call, idx: Index, who: Caller, userProjects: seq<PU>, userOrgs: seq<OU>): Response
  {
    OutcomeWithProject(c, idx, who, userProjects, userOrgs,
                       SelectProject(idx, c.req.organizationID, c.req.projectID, userProjects, userOrgs))
  }

  /** The answer a request is heading for when all its remaining reads see `idx`. */
  function Outcome(c: Call, at: Point, idx: Index): Result<Response, StatusError> {
    match at
    case ReadKey => Decide(idx, c.config, c.req, c.answer)
    case ReadKeyProject(k) => Ok(DecideKey(idx, c.config, c.req, k))
    case ReadKeyOrganization(k, p) =>
      (match Lookup(idx.orgsByID, k.organizationID)
       case Some(o) => Ok(KeyResponse(c.config, c.req, k, p, o, Slice(idx.clustersByTenantID, k.tenantID)))
       case None => Ok(DENIED))
    case ReadKeyClusters(k, p, o) =>
      Ok(KeyResponse(c.config, c.req, k, p, o, Slice(idx.clustersByTenantID, k.tenantID)))
    case ReadUser(userID) => Ok(DecideUser(idx, c.config, c.req, userID))
    case ReadUserProjects(who) =>
      Ok(OutcomeWithMemberships(c, idx, who, Slice(idx.projectsByUserID, who.userID),
                                Slice(idx.orgsByUserID, who.userID)))
    case ReadUserOrganizations(who, userProjects) =>
      Ok(OutcomeWithMemberships(c, idx, who, userProjects, Slice(idx.orgsByUserID, who.userID)))
    case ReadNamedProject(who, userProjects, userOrgs) =>
      Ok(OutcomeWithMemberships(c, idx, who, userProjects, userOrgs))
    case ReadNamedOrganization(who, userProjects, userOrgs) =>
      Ok(OutcomeWithMemberships(c, idx, who, userProjects, userOrgs))
    case ReadItsProjects(who, userProjects, userOrgs) =>
      Ok(OutcomeWithProject(c, idx, who, userProjects, userOrgs,
                            PickProject(CandidatesIn(idx, c.req.organizationID, userProjects))))
    case ReadEachOrganization(who, userProjects, userOrgs, n, projects) =>
      Ok(if n > |userOrgs| then DENIED
         else OutcomeWithProject(
           c, idx, who, userProjects, userOrgs,
           PickProject(projects + ProjectsOfOrganizations(idx.projectsByOrganizationID, userOrgs[n..]))))
    case ReadProjectOrganization(who, pr) => Ok(OutcomeWithRoles(c, idx, who, pr))
    case ReadClusters(who, pr, o) =>
      Ok(UserResponse(c.config, c.req, who.userID, who.u, pr, o, Slice(idx.clustersByTenantID, who.u.tenantID)))
    case Done(result) => result
  }

  /** A point that a request can be at: what it is about to read matches what it asked for. */
  predicate Consistent(c: Call, at: Point) {
    match at
    case ReadKey => MissingArgument(c.req).None?
    case ReadNamedProject(_, _, _) => c.req.projectID != ""
    case ReadNamedOrganization(_, _, _) => c.req.projectID == "" && c.req.organizationID != ""
    case ReadEachOrganization(_, _, userOrgs, n, _) => n < |userOrgs|
    case ReadUserProjects(_) => !NotProjectScoped(c.req)
    case _ => true
  }

  /** The candidates to come are those of the next organization, then those of the later ones. */
  lemma NextOrganization(byOrganization: map<string, seq<P>>, userOrgs: seq<OU>, n: nat, projects: seq<P>)
    requires n < |userOrgs|
    ensures var found := projects + Slice(byOrganization, userOrgs[n].organizationID);
            && found + ProjectsOfOrganizations(byOrganization, userOrgs[n + 1..])
               == projects + ProjectsOfOrganizations(byOrganization, userOrgs[n..])
            && (n + 1 == |userOrgs| ==> found == projects + ProjectsOfOrganizations(byOrganization, userOrgs[n..]))
  {
    var next, rest := userOrgs[n], userOrgs[n + 1..];
    var found := Slice(byOrganization, next.organizationID);
    assert userOrgs[n..] == [next] + rest;
    ProjectsOfConcat(byOrganization, [next], rest);
    assert [next][..0] == [];
    assert ProjectsOfOrganizations(byOrganization, [next]) == [] + found == found;
    Associative(projects, found, ProjectsOfOrganizations(byOrganization, rest));
    assert found + [] == found;
  }

  lemma EachOrganizationKeepsOutcome(c: Call, at: Point, idx: Index)
    requires at.ReadEachOrganization? && Consistent(c, at)
    ensures Consistent(c, Next(c, at, idx))
    ensures Outcome(c, Next(c, at, idx), idx) == Outcome(c, at, idx)
  {
    NextOrganization(idx.projectsByOrganizationID, at.userOrgs, at.n, at.projects);
  }

  lemma KeyReadKeepsOutcome(c: Call, at: Point, idx: Index)
    requires at.ReadKey? || at.ReadKeyProject? || at.ReadKeyOrganization? || at.ReadKeyClusters? || at.ReadUser?
    requires Consistent(c, at)
    ensures Consistent(c, Next(c, at, idx))
    ensures Outcome(c, Next(c, at, idx), idx) == Outcome(c, at, idx)
  {
  }

  lemma MembershipsKeepOutcome(c: Call, idx: Index, who: Caller, userProjects: seq<PU>, userOrgs: seq<OU>)
    ensures Outcome(c, WithMemberships(c, who, userProjects, userOrgs), idx)
         == Ok(OutcomeWithMemberships(c, idx, who, userProjects, userOrgs))
  {
    assert userOrgs[0..] == userOrgs;
    if userOrgs == [] {
      assert Map(userProjects, MembershipProjectOf) + [] == Map(userProjects, MembershipProjectOf);
    }
  }

  /** A read keeps the answer a request is heading for on the content it reads. */
  lemma ReadKeepsOutcome(c: Call, at: Point, idx: Index)
    requires Consistent(c, at)
    ensures Consistent(c, Next(c, at, idx))
    ensures Outcome(c, Next(c, at, idx), idx) == Outcome(c, at, idx)
  {
    match at
    case ReadKey => KeyReadKeepsOutcome(c, at, idx);
    case ReadKeyProject(_) => KeyReadKeepsOutcome(c, at, idx);
    case ReadKeyOrganization(_, _) => KeyReadKeepsOutcome(c, at, idx);
    case ReadKeyClusters(_, _, _) => KeyReadKeepsOutcome(c, at, idx);
    case ReadUser(_) => KeyReadKeepsOutcome(c, at, idx);
    case ReadUserOrganizations(who, userProjects) =>
      MembershipsKeepOutcome(c, idx, who, userProjects, Slice(idx.orgsByUserID, who.userID));
    case ReadEachOrganization(_, _, _, _, _) => EachOrganizationKeepsOutcome(c, at, idx);
    case _ =>
  }

  lemma {:induction false} ReplayConsistent(c: Call, views: seq<Index>)
    ensures Consistent(c, Replay(c, views))
  {
    if views != [] {
      ReplayConsistent(c, views[..|views| - 1]);
      ReadKeepsOutcome(c, Replay(c, views[..|views| - 1]), views[|views| - 1]);
    }
  }

  /** If every read from the `n`th on sees the same content, the answer is settled by what came before and it. */
  lemma {:induction false} StableSuffix(c: Call, views: seq<Index>, n: nat, idx: Index)
    requires n <= |views| && forall i | n <= i < |views| :: views[i] == idx
    ensures Outcome(c, Replay(c, views), idx) == Outcome(c, Replay(c, views[..n]), idx)
    decreases |views|
  {
    if n < |views| {
      var before := views[..|views| - 1];
      assert before[..n] == views[..n];
      StableSuffix(c, before, n, idx);
      ReplayConsistent(c, before);
      ReadKeepsOutcome(c, Replay(c, before), idx);
    } else {
      assert views[..n] == views;
    }
  }

  lemma StartOutcome(c: Call, idx: Index)
    ensures Outcome(c, Start(c), idx) == Decide(idx, c.config, c.req, c.answer)
  {
  }

  lemma AtomicReplay(c: Call, views: seq<Index>, idx: Index)
    requires (forall i | 0 <= i < |views| :: views[i] == idx) && Replay(c, views).Done?
    ensures Replay(c, views).result == Decide(idx, c.config, c.req, c.answer)
  {
    StableSuffix(c, views, 0, idx);
    assert views[..0] == [];
    StartOutcome(c, idx);
  }

  ghost predicate AnsweredBy(c: Call, result: Result<Response, StatusError>, history: seq<Upstream>, n: nat)
    requires n <= |history|
  {
    result == Decide(SyncRuns.Generation(history, n), c.config, c.req, c.answer)
  }

  /** A request that finishes with no commit between its reads is answered atomically. */
  lemma AtomicWithoutCommit(c: Call, events: seq<Event>)
    requires After(c, events).Done?
    requires forall i, j | 0 <= i < j < |Generations(events)| :: Generations(events)[i] == Generations(events)[j]
    ensures exists n: nat | n <= |History(events)| :: AnsweredBy(c, After(c, events).result, History(events), n)
  {
    InterleavedIsReplay(c, events);
    var gens, history := Generations(events), History(events);
    var n := if gens == [] then 0 else gens[0];
    AtomicReplay(c, Views(history, gens), SyncRuns.Generation(history, n));
    assert AnsweredBy(c, After(c, events).result, history, n);
  }

  /** How many reads a request still makes when they all see `idx`. */
  function ReadsLeft(c: Call, at: Point, idx: Index): nat {
    match at
    case ReadKey => 9 + (if c.answer.Active? then |Slice(idx.orgsByUserID, c.config.normalize(c.answer.email))| else 0)
    case ReadKeyProject(_) => 3
    case ReadKeyOrganization(_, _) => 2
    case ReadKeyClusters(_, _, _) => 1
    case ReadUser(userID) => 8 + |Slice(idx.orgsByUserID, userID)|
    case ReadUserProjects(who) => 7 + |Slice(idx.orgsByUserID, who.userID)|
    case ReadUserOrganizations(who, _) => 6 + |Slice(idx.orgsByUserID, who.userID)|
    case ReadNamedProject(_, _, _) => 3
    case ReadNamedOrganization(_, _, _) => 4
    case ReadItsProjects(_, _, _) => 3
    case ReadEachOrganization(_, _, userOrgs, n, _) => 3 + (if n < |userOrgs| then |userOrgs| - n else 0)
    case ReadProjectOrganization(_, _) => 2
    case ReadClusters(_, _, _) => 1
    case Done(_) => 0
  }

  /** Every read of an unfinished request brings it nearer to its end. */
  lemma ReadMakesProgress(c: Call, at: Point, idx: Index)
    requires !at.Done?
    ensures ReadsLeft(c, Next(c, at, idx), idx) < ReadsLeft(c, at, idx)
  {
  }

  lemma {:induction false} SuffixProgress(c: Call, views: seq<Index>, n: nat, idx: Index)
    requires n <= |views| && forall i | n <= i < |views| :: views[i] == idx
    ensures Replay(c, views).Done?
         || |views| - n + ReadsLeft(c, Replay(c, views), idx) <= ReadsLeft(c, Replay(c, views[..n]), idx)
    decreases |views|
  {
    if n < |views| {
      var before := views[..|views| - 1];
      assert before[..n] == views[..n];
      SuffixProgress(c, before, n, idx);
      if !Replay(c, before).Done? {
        ReadMakesProgress(c, Replay(c, before), idx);
      }
    } else {
      assert views[..n] == views;
    }
  }

  /** Once the content stays as it is, a request finishes within the reads it has left. */
  lemma SuffixFinishes(c: Call, views: seq<Index>, n: nat, idx: Index)
    requires n <= |views| && forall i | n <= i < |views| :: views[i] == idx
    requires |views| - n >= ReadsLeft(c, Replay(c, views[..n]), idx)
    ensures Replay(c, views) == Done(Outcome(c, Replay(c, views[..n]), idx))
  {
    SuffixProgress(c, views, n, idx);
    StableSuffix(c, views, n, idx);
    if !Replay(c, views).Done? {
      NotYetDone(c, Replay(c, views), idx);
    }
  }

  lemma NotYetDone(c: Call, at: Point, idx: Index)
    requires !at.Done?
    ensures ReadsLeft(c, at, idx) > 0
  {
  }

  /** A request that sees one content only finishes, with the atomic decision on it. */
  lemma AtomicFinishes(c: Call, idx: Index, views: seq<Index>)
    requires forall i | 0 <= i < |views| :: views[i] == idx
    requires |views| >= ReadsLeft(c, Start(c), idx)
    ensures Replay(c, views) == Done(Decide(idx, c.config, c.req, c.answer))
  {
    assert views[..0] == [];
    SuffixFinishes(c, views, 0, idx);
    StartOutcome(c, idx);
  }
}
