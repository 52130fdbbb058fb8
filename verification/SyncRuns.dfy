/**
 The cache as a state machine: what one update does to the stored state, and what every run of
 updates keeps. List calls are made outside the lock and the commit inside it, so updaters that
 run at the same time interleave as separate fetch and commit steps.
 */
module SyncRuns {
  import opened Wrappers
  import opened Records
  import opened Indexes

  /** The results of the six list calls one update makes. */
  datatype Calls = Calls(
    apiKeys: Result<seq<APIKey>, string>,
    clusters: Result<seq<Cluster>, string>,
    organizations: Result<seq<Organization>, string>,
    organizationUsers: Result<seq<OrganizationUser>, string>,
    projects: Result<seq<Project>, string>,
    projectUsers: Result<seq<ProjectUser>, string>)
  {
    predicate AllListed() {
      && apiKeys.Ok? && clusters.Ok? && organizations.Ok?
      && organizationUsers.Ok? && projects.Ok? && projectUsers.Ok?
    }

    function Listed(): Upstream
      requires AllListed()
    {
      Upstream(apiKeys.value, clusters.value, organizations.value,
               organizationUsers.value, projects.value, projectUsers.value)
    }

    /** The error of the first list call that fails, in the order the calls are made. */
    function FirstFailure(): string
      requires !AllListed()
    {
      if apiKeys.Err? then apiKeys.error
      else if clusters.Err? then clusters.error
      else if organizations.Err? then organizations.error
      else if organizationUsers.Err? then organizationUsers.error
      else if projects.Err? then projects.error
      else projectUsers.error
    }

    ghost predicate Succeeds() {
      AllListed() && Accepted(Listed())
    }
  }

  /** Everything a Store holds. `closes` counts how often the initial-sync channel was closed. */
  datatype StoreState = StoreState(
    index: Index,
    synced: bool,
    closes: nat,
    lastSuccessfulSyncTime: Option<int>)

  const NEW_STORE := StoreState(EMPTY_INDEX, false, 0, None)

  ghost function AfterUpdate(s: StoreState, calls: Calls, now: int): StoreState {
    if calls.Succeeds() then AfterCommit(s, calls.Listed(), now) else s
  }

  datatype Event =
    | Fetch(updater: nat, calls: Calls)
    | Commit(updater: nat, now: int)

  /** A store with the updates that have fetched their lists and not yet taken the lock. */
  datatype System = System(store: StoreState, pending: map<nat, Calls>)

  ghost function Step(s: System, e: Event): System {
    match e
    case Fetch(updater, calls) => s.(pending := s.pending[updater := calls])
    case Commit(updater, now) =>
      if updater in s.pending
      then System(AfterUpdate(s.store, s.pending[updater], now), s.pending - {updater})
      else s
  }

  ghost function Run(events: seq<Event>): System {
    if events == [] then System(NEW_STORE, map[])
    else Step(Run(events[..|events| - 1]), events[|events| - 1])
  }

  /** The upstream answers committed by a run, in commit order. */
  ghost function Commits(events: seq<Event>): seq<Upstream> {
    if events == [] then []
    else
      var before := events[..|events| - 1];
      var e := events[|events| - 1];
      if e.Commit? && e.updater in Run(before).pending && Run(before).pending[e.updater].Succeeds()
      then Commits(before) + [Run(before).pending[e.updater].Listed()]
      else Commits(before)
  }

  /** The index that `n` commits leave in the store. */
  ghost function Generation(commits: seq<Upstream>, n: nat): Index
    requires n <= |commits|
  {
    if n == 0 then EMPTY_INDEX else IndexOf(commits[n - 1])
  }

  ghost predicate AllAccepted(commits: seq<Upstream>) {
    forall i :: 0 <= i < |commits| ==> Accepted(commits[i])
  }

  /** What a store holds after these commits. */
  ghost predicate Sound(s: StoreState, commits: seq<Upstream>) {
    && AllAccepted(commits)
    && s.index == Generation(commits, |commits|)
    && (s.synced <==> |commits| > 0)
    && s.closes == (if s.synced then 1 else 0)
    && (s.lastSuccessfulSyncTime.Some? <==> s.synced)
  }

  ghost function AfterCommit(s: StoreState, up: Upstream, now: int): StoreState {
    StoreState(IndexOf(up), true, if s.synced then s.closes else s.closes + 1, Some(now))
  }

  lemma SoundCommit(s: StoreState, commits: seq<Upstream>, up: Upstream, now: int)
    requires Sound(s, commits) && Accepted(up)
    ensures Sound(AfterCommit(s, up, now), commits + [up])
  {
    AcceptedSnoc(commits, up);
  }

  lemma AcceptedSnoc(commits: seq<Upstream>, up: Upstream)
    requires AllAccepted(commits) && Accepted(up)
    ensures AllAccepted(commits + [up])
    ensures Generation(commits + [up], |commits| + 1) == IndexOf(up)
  {
  }

  lemma GenerationWellFormed(commits: seq<Upstream>, n: nat)
    requires AllAccepted(commits) && n <= |commits|
    ensures WellFormed(Generation(commits, n))
  {
    if n > 0 {
      IndexOfWellFormed(commits[n - 1]);
    }
  }

  /** What every run of fetches and commits keeps, whichever updates fail and however they overlap. */
  lemma {:induction false} RunInvariant(events: seq<Event>)
    ensures var s := Run(events).store;
            var commits := Commits(events);
            Sound(s, commits) && WellFormed(s.index)
  {
    if events == [] {
      EmptyIndexWellFormed();
    } else {
      var before := events[..|events| - 1];
      RunInvariant(before);
      var e, s := events[|events| - 1], Run(before);
      if e.Commit? && e.updater in s.pending && s.pending[e.updater].Succeeds() {
        SoundCommit(s.store, Commits(before), s.pending[e.updater].Listed(), e.now);
      }
      GenerationWellFormed(Commits(events), |Commits(events)|);
    }
  }

  /** A longer run keeps every earlier commit, and so never takes `synced` back. */
  lemma {:induction false} CommitsGrow(events: seq<Event>, n: nat)
    requires n <= |events|
    ensures Commits(events[..n]) <= Commits(events)
    ensures Run(events[..n]).store.synced ==> Run(events).store.synced
    decreases |events|
  {
    if n < |events| {
      var before := events[..|events| - 1];
      assert before[..n] == events[..n];
      CommitsGrow(before, n);
      assert Commits(before) <= Commits(events);
    } else {
      assert events[..n] == events;
    }
  }

  /** The committing steps of a run, each right after a fetch of what it committed: no overlap and no failure. */
  ghost function Serialized(events: seq<Event>): seq<Event> {
    if events == [] then []
    else
      var before := events[..|events| - 1];
      var e := events[|events| - 1];
      if e.Commit? && e.updater in Run(before).pending && Run(before).pending[e.updater].Succeeds()
      then Serialized(before) + [Fetch(e.updater, Run(before).pending[e.updater]), e]
      else Serialized(before)
  }

  lemma FetchThenCommit(events: seq<Event>, updater: nat, calls: Calls, now: int)
    requires Run(events).pending == map[] && calls.Succeeds()
    ensures Run(events + [Fetch(updater, calls), Commit(updater, now)])
         == System(AfterUpdate(Run(events).store, calls, now), map[])
    ensures Commits(events + [Fetch(updater, calls), Commit(updater, now)]) == Commits(events) + [calls.Listed()]
  {
    var fetch, commit := Fetch(updater, calls), Commit(updater, now);
    var once := events + [fetch];
    assert once[..|events|] == events;
    assert events + [fetch, commit] == once + [commit] && (once + [commit])[..|once|] == once;
  }

  /** Overlapping updates, some failing, leave what the successful ones would have left one after the other. */
  lemma {:induction false} Serializable(events: seq<Event>)
    ensures Run(Serialized(events)) == System(Run(events).store, map[])
    ensures Commits(Serialized(events)) == Commits(events)
  {
    if events != [] {
      var before := events[..|events| - 1];
      var e := events[|events| - 1];
      Serializable(before);
      if e.Commit? && e.updater in Run(before).pending && Run(before).pending[e.updater].Succeeds() {
        FetchThenCommit(Serialized(before), e.updater, Run(before).pending[e.updater], e.now);
      }
    }
  }

  datatype WaitOutcome = Synchronized | Cancelled

  /** What waiting for the first sync may return; neither means that it blocks. */
  function WaitForSync(s: StoreState, contextDone: bool): set<WaitOutcome> {
    (if s.closes > 0 then {Synchronized} else {}) + (if contextDone then {Cancelled} else {})
  }

  /** Waiting reports success only after a commit, and after one it never blocks again. */
  lemma WaitOnlyAfterCommit(events: seq<Event>, contextDone: bool)
    ensures Synchronized in WaitForSync(Run(events).store, contextDone) <==> |Commits(events)| > 0
    ensures Cancelled in WaitForSync(Run(events).store, contextDone) <==> contextDone
  {
    RunInvariant(events);
  }
}
