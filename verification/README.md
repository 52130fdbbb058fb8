# Verification of the RBAC manager

A Dafny model of the RBAC manager: the cache that indexes users, organizations, projects, clusters and API keys; the
authorizer that answers every request from those indexes; the client interceptors behind it; and the streaming and
flattening runtime of the TypeScript client. `dafny verify dfyconfig.toml` checks all of it.

## What is modelled

**The cache.** `Records` has the upstream and the cached records, `Lists` the three kinds of map that the update
builds (last record wins, first record wins, append to a slice) and the scans they stand for. `Indexes` says what the
nine indexes hold for an upstream answer (`IndexOf`), which answers are accepted (`Accepted`) and what holds across
indexes (`WellFormed`); `Contents` says the same field by field, on positions of the raw lists. `Cache` is the `Store`
class: the loops of the update with the maps they fill, the validation, and the commit that overwrites the fields.
`SyncRuns` is the store as a state machine in which any number of updaters fetch and commit, overlap and fail.

**The authorizer.** `Decision` is the answer as a function of one content of the indexes. `Server` is the authorizer
itself, with its loops, reading the store through the getters; it is proved to compute that function. `KubernetesEnvs`
expands a project's namespaces over clusters. `Reference` is an independent authorizer that has no index: it scans the
raw lists, picks among raw projects and answers from raw records. `Guarantees` states tenancy, roles, scopes and
project selection on the raw lists.

**Interleaving.** Every getter takes the lock for itself, so one request can read several generations of the cache.
`Interleaving` is a request as a machine with one read per step, run between the fetches and commits of updates.
`TornReads` says which read settles what, when a response is still coherent, and gives a run in which it is not.

**The clients.** `Interceptor` composes the authorizer with the gRPC and HTTP interceptors. `Decoder` is the decoder
of newline-delimited streams, `Flatten`, `PayloadTrees` and `SearchParams` the way from a payload to the pairs of a
URL query.

## Results that are not simply yes

- *Tenant of the organization, JWT path.* On one snapshot, in every reachable state, the organization of a response is
  of the user's tenant, whatever IDs are requested (`Guarantees.TenantCoherence`). This follows from the tenant
  validation of the update and the lookup of the user's organization role. Across commits it is of the user's tenant
  exactly when the tenant of the user is the same at the second and the fourth read
  (`TornReads.TornCoherenceExactly`); `TornReads.TornResponse` is a run in which it is not.
- *Tenant of what is requested.* `server/internal/server/authorization.go` leaves these checks as TODO. For a project
  (line 251) the check is implied: naming a project of another tenant is always denied
  (`Guarantees.ForeignProjectDenied`). For an organization (lines 204 and 266) it is not: naming an organization of
  another tenant is denied exactly under the condition of `Guarantees.ForeignOrganization`, and
  `Guarantees.OrganizationNotHonoured` has accepted lists for which it is authorized, about the user's own
  organization. `Guarantees.ForeignOrganizationDenied` excludes this when the membership records agree with the
  projects.
- *Tenant of the organization, API-key path.* It is the reported tenant exactly when the key record is of its
  organization's tenant (`Guarantees.KeyTenants`); nothing in the code checks that, and
  `Guarantees.KeyTenantNotCoherent` has accepted lists for which it is not.
- *Requested organization.* A user who names an organization is answered about that one exactly under the condition of
  `Guarantees.OrganizationHonoured`, because a project membership can be recorded under an organization other than its
  project's. `Guarantees.OrganizationNotHonoured` shows it, and `Guarantees.OrganizationAlwaysHonoured` excludes it
  when the membership records agree with the projects.
- *Distinct environments.* With distinct clusters, they are pairwise distinct exactly when every namespace shared more
  than once is given to, or withheld from, every cluster (`KubernetesEnvs.EnvsDistinct`). An empty namespace is
  withheld from clusters that no assignment names.
- *Invertible flattening.* A path can be read back from its key exactly when its components have no dot and the first
  of several is not empty (`Flatten.PathRecoverable`), and a payload is rebuilt exactly when this holds of the paths
  of all its leaves (`PayloadTrees.RoundTrip`). `PayloadTrees.FlattenLoses` has payloads of both kinds that are lost.

## Model

| member | source | states |
|---|---|---|
| `Lists.LastMapReads` | server/internal/cache/cache.go:265-281 | reading a map in which later records replace earlier ones is finding the last record with that key |
| `Lists.FirstMapReads` | server/internal/cache/cache.go:365-384 | reading a map that keeps what is there is finding the first record with that key |
| `Lists.GroupMapReads` | server/internal/cache/cache.go:327-333 | reading a map of slices is the in-order subsequence of records with that key; the key is present exactly when there is one |
| `Lists.GroupCount` | server/internal/cache/cache.go:288-297 | slices partition what they are built from: each value occurs in the slice of its own key as often as among all values, and in no other |
| `Lists.GroupAt` | server/internal/cache/cache.go:327-333 | the values of a slice are those of the records at strictly increasing positions of the list, and these are all positions with that key |
| `Indexes.KeyRead` | server/internal/cache/cache.go:265-281 | a secret reads as the last listed API key with it |
| `Indexes.RegistrationRead` | server/internal/cache/cache.go:287-295 | a registration key reads as the last listed cluster with it |
| `Indexes.ClustersRead` | server/internal/cache/cache.go:288-297 | a tenant reads as its listed clusters, in order |
| `Indexes.OrganizationRead` | server/internal/cache/cache.go:316-325 | an organization ID reads as the last listed organization with it |
| `Indexes.OrganizationMembersRead` | server/internal/cache/cache.go:327-333 | a user reads as all its organization memberships, in order |
| `Indexes.ProjectRead` | server/internal/cache/cache.go:335-347 | a project ID reads as the last listed project with it |
| `Indexes.OrganizationProjectsRead` | server/internal/cache/cache.go:336-349 | an organization reads as its listed projects, in order |
| `Indexes.ProjectMembersRead` | server/internal/cache/cache.go:351-363 | a user reads as all its project memberships, in order, each with the project it names |
| `Indexes.UserRead` | server/internal/cache/cache.go:365-384 | a user reads as its first organization membership, with the tenant of that organization |
| `Indexes.ClustersPartition` | server/internal/cache/cache.go:288-297 | the slices by tenant partition the listed clusters: each is in the slice of its tenant as often as it is listed, and in no other |
| `Indexes.ProjectsPartition` | server/internal/cache/cache.go:335-349 | the slices by organization partition the listed projects in the same way |
| `Indexes.MemberTenant` | server/internal/cache/cache.go:372-383 | the one record kept for a user has the tenant of every organization the user is in |
| `Indexes.ProjectMembershipOf` | server/internal/cache/cache.go:353-362 | the project of every indexed membership is the indexed project with its ID |
| `Indexes.OrganizationMembershipOf` | server/internal/cache/cache.go:367-383 | every indexed membership names an indexed organization of its user's tenant |
| `Indexes.IdentifiersAgree` | server/internal/cache/cache.go:316-384 | records are found under their own IDs, and memberships and users have the same keys |
| `Indexes.ClustersAgreeOf` | server/internal/cache/cache.go:287-297 | every cluster indexed by registration key is also among those of its tenant, and those of a tenant are of that tenant |
| `Indexes.IndexOfWellFormed` | server/internal/cache/cache.go:287-384 | every accepted upstream answer is indexed consistently across all nine indexes |
| `Contents.CachedKey` | server/internal/cache/cache.go:265-281 | a cached API key has, field by field, what the last listed record with its secret has |
| `Contents.CachedRegistration` | server/internal/cache/cache.go:287-295 | a cluster under a registration key has, field by field, what the last listed record with it has |
| `Contents.CachedOrganization` | server/internal/cache/cache.go:316-325 | a cached organization has, field by field, what the last listed record with its ID has |
| `Contents.CachedProject` | server/internal/cache/cache.go:335-347 | a cached project has the title, organization, namespace, assignments and default flag of the last listed record with its ID |
| `Contents.CachedUser` | server/internal/cache/cache.go:365-384 | a cached user has the ID and internal ID of its first listed membership and the tenant of that membership's organization |
| `Contents.CachedClusters` | server/internal/cache/cache.go:288-297 | the clusters under a tenant are, position by position and field by field, the records listed with it |
| `Contents.CachedProjects` | server/internal/cache/cache.go:336-349 | the projects under an organization are, position by position and field by field, the records listed with it |
| `Contents.CachedOrganizationMemberships` | server/internal/cache/cache.go:327-333 | a user's organization memberships are, position by position, the records listed for it, with their roles and organizations |
| `Contents.CachedProjectMemberships` | server/internal/cache/cache.go:351-363 | a user's project memberships are, position by position, the records listed for it, with their roles, organizations and cached projects |
| `Cache.IndexAPIKeys` | server/internal/cache/cache.go:265-281 | the loop builds the last-wins map of all keys |
| `Cache.IndexClusters` | server/internal/cache/cache.go:287-297 | the loop builds the last-wins map by registration key and the slices by tenant |
| `Cache.IndexOrganizations` | server/internal/cache/cache.go:316-325 | the loop builds the last-wins map of all organizations |
| `Cache.IndexOrganizationUsers` | server/internal/cache/cache.go:327-333 | the loop builds the slices of memberships by user |
| `Cache.IndexProjects` | server/internal/cache/cache.go:335-349 | the loop builds the last-wins map by ID and the slices by organization |
| `Cache.IndexProjectUsers` | server/internal/cache/cache.go:351-363 | succeeds exactly when every project membership names a listed project, with all of them grouped by user; else reports the first that does not |
| `Cache.NextUser` | server/internal/cache/cache.go:372-383 | comparing a membership with the one record kept for its user decides whether it agrees with all earlier memberships of the user, in both directions; only a new user is added |
| `Cache.IndexUsers` | server/internal/cache/cache.go:365-384 | succeeds exactly when every organization membership names a listed organization and no user has two tenants, with the first record of each user; else reports the first membership that breaks this |
| `Cache.Prepare` | server/internal/cache/cache.go:260-384 | succeeds exactly when all six calls do and the lists are accepted, with their index; else reports the first failing call or record |
| `Cache.Store.constructor` | server/internal/cache/cache.go:90-112 | a new store is valid, empty, not synced and has no commit |
| `Cache.Store.Commit` | server/internal/cache/cache.go:386-410 | the whole content is replaced, and the initial-sync channel is closed if and only if this is the first commit |
| `Cache.Store.GettersRead` | server/internal/cache/cache.go:151-227 | after a commit, each of the nine getters reads the index of the lists committed last |
| `Cache.Store.UpdateCache` | server/internal/cache/cache.go:259-411 | succeeds exactly on six complete and accepted lists and then holds exactly their index, with the time of the update and the signal given once; every failure leaves all fields as they were |
| `SyncRuns.RunInvariant` | server/internal/cache/cache.go:237-257 | after any run of overlapping and failing updates the content is the well-formed index of the last commit; the channel was closed once if there was a commit and never otherwise |
| `SyncRuns.GenerationWellFormed` | server/internal/cache/cache.go:386-401 | every generation that a reader can see is consistent across indexes |
| `SyncRuns.CommitsGrow` | server/internal/cache/cache.go:403-408 | commits are never undone and `synced` never reverts |
| `SyncRuns.FetchThenCommit` | server/internal/cache/cache.go:259-411 | an update that runs alone and succeeds adds its lists as the next commit |
| `SyncRuns.Serializable` | server/internal/cache/cache.go:259-411 | overlapping updates, some failing, leave exactly what the successful ones would leave one after the other in commit order |
| `SyncRuns.WaitOnlyAfterCommit` | server/internal/cache/cache.go:414-421 | waiting can report success exactly when a commit has happened, and cancellation exactly when the context is done |
| `KubernetesEnvs.CollectNamespaces` | server/internal/server/authorization.go:329-342 | the loop collects the shared namespaces in order and, per named cluster, the last assigned one |
| `KubernetesEnvs.AppendClusterEnvs` | server/internal/server/authorization.go:344-366 | appends the environments of one cluster: its own first, then each shared namespace that is not skipped |
| `KubernetesEnvs.AssignedKubernetesEnvs` | server/internal/server/authorization.go:322-369 | the nested loops compute the expansion over all clusters |
| `KubernetesEnvs.OwnIsLast` | server/internal/server/authorization.go:335-342 | a cluster's own namespace is that of the last assignment naming it |
| `KubernetesEnvs.EnvMultiplicity` | server/internal/server/authorization.go:344-366 | how often each environment occurs, exactly, for any clusters, assignments and namespaces |
| `KubernetesEnvs.DistinctClusters` | server/internal/server/authorization.go:344-366 | with distinct clusters: once if it is the cluster's own namespace, else as often as it is shared, and never if empty on a cluster without one |
| `KubernetesEnvs.DistinctEnvs` | server/internal/server/authorization.go:355-365 | with distinct clusters, environments are pairwise distinct if and only if repeated shared namespaces are suppressed on every cluster |
| `KubernetesEnvs.EnvsBound` | server/internal/server/authorization.go:344-366 | at most one environment per cluster and shared namespace, plus one per cluster |
| `KubernetesEnvs.Grouped` | server/internal/server/authorization.go:344-366 | the environments of a cluster are contiguous, in cluster order, and start with its own namespace |
| `KubernetesEnvs.EnvNamesCluster` | server/internal/server/authorization.go:344-366 | every environment carries the ID and name of one of the given clusters |
| `KubernetesEnvs.EnvCount` | server/internal/server/authorization.go:322-369 | from the namespace and the assignments alone: with distinct clusters, a cluster gets a namespace once if its last assignment gives it, never if it is empty and no assignment names the cluster, else as often as it is the project's own or assigned to all |
| `KubernetesEnvs.EnvOfCluster` | server/internal/server/authorization.go:344-366 | every environment carries the ID and name of one of the clusters |
| `KubernetesEnvs.EnvsInOrder` | server/internal/server/authorization.go:322-369 | what a cluster gets, exactly and in order: its last assigned namespace, the project's own, then those assigned to all by increasing position; between what earlier and later clusters get |
| `KubernetesEnvs.EnvsDistinct` | server/internal/server/authorization.go:322-369 | with distinct clusters no environment repeats if and only if every namespace shared more than once is given to each cluster or is empty and not given |
| `KubernetesEnvs.EnvsLimit` | server/internal/server/authorization.go:322-369 | at most one environment per cluster for its own assignment, for the project's namespace and for each assignment that names no cluster |
| `Server.Pick` | server/internal/server/authorization.go:304-311 | returns the first default project, or the first of all |
| `Server.AuthorizationServer.Authorized` | server/internal/server/authorization.go:129-195 | true exactly when the role for this pair of roles has the scope in its list |
| `Server.AuthorizationServer.UserCandidatesIn` | server/internal/server/authorization.go:271-277 | the loop gives the projects of the memberships recorded under the organization, in order |
| `Server.AuthorizationServer.FindAssociatedProject` | server/internal/server/authorization.go:241-301 | selects by the three precedence rules on the store's content |
| `Server.AuthorizationServer.ProjectRoleFor` | server/internal/server/authorization.go:215-221 | the loop gives the role of the first membership in the project |
| `Server.AuthorizationServer.OrganizationRoleFor` | server/internal/server/authorization.go:223-229 | the loop gives the role of the first membership in the organization |
| `Server.AuthorizationServer.FindAssociatedProjectAndRoles` | server/internal/server/authorization.go:203-239 | the selected project with the user's roles on it, or nothing without a role in its organization |
| `Server.AuthorizationServer.Authorize` | server/internal/server/authorization.go:17-127 | on any content of the store, the answer is the decision function of that content |
| `Reference.OrganizationRoleScan` | server/internal/server/authorization.go:223-229 | the first match in the user's slice is the first match in the whole membership list |
| `Reference.ProjectRoleScan` | server/internal/server/authorization.go:215-221 | the same for project memberships |
| `Reference.MembersInOrder` | server/internal/server/authorization.go:271-277 | a user's member projects are the last listed ones named by exactly the memberships that count, by increasing position |
| `Reference.OrganizationsInOrder` | server/internal/server/authorization.go:292-294 | the projects of a user's organizations come membership by membership, in list order |
| `Reference.PickAgrees` | server/internal/server/authorization.go:304-311 | picking among cached projects is picking among the raw records by their default flag |
| `Reference.EntitledIsPermitted` | server/internal/server/authorization.go:166-194 | the role check is exactly the four pairs of roles with the scope in the list of their named role |
| `Reference.SelectionAgrees` | server/internal/server/authorization.go:241-301 | selection over the indexes is selection among the raw project records |
| `Reference.RolesAgree` | server/internal/server/authorization.go:215-229 | roles over the indexes are roles by scanning the lists |
| `Reference.RoleImpliesOrganization` | server/internal/server/authorization.go:101-104 | a user with a role in an organization: the organization is listed and cached, with the same title |
| `Reference.KeyRefinement` | server/internal/server/authorization.go:28-63 | the API-key path over the indexes is that of the scans |
| `Reference.UserRefinement` | server/internal/server/authorization.go:74-126 | the user path over the indexes is that of the scans, which never look for a missing organization |
| `Reference.ScopedAuthorization` | server/internal/server/authorization.go:95-107 | a listed user is authorized for a project-scoped resource if and only if a raw project is selected and the listed roles on it have the scope |
| `Reference.Refinement` | server/internal/server/authorization.go:17-127 | for every accepted upstream answer, request and introspection result, the indexed answer is that of an authorizer that scans and answers from the raw records |
| `Guarantees.ErrorsExactly` | server/internal/server/authorization.go:18-72 | a request fails exactly when its token, resource or capability is empty, or its token is no API key and cannot be introspected; a token that is neither a key nor active is denied |
| `Guarantees.TenantCoherence` | server/internal/server/authorization.go:203-239 | in every reachable state, a selected project's organization is cached and of the user's tenant, whatever was requested; its lookup cannot fail |
| `Guarantees.OrganizationResources` | server/internal/server/authorization.go:80-80 | the resources left to the handler are exactly those named "api.organizations" followed by anything |
| `Guarantees.OrganizationResourceAnswer` | server/internal/server/authorization.go:80-93 | on such a resource every listed user is authorized as that user, with the internal ID of its first membership and its tenant, and without organization, project, environments or key |
| `Guarantees.UserAnswer` | server/internal/server/authorization.go:74-126 | an answer that names a user names that user, with the internal ID of its first membership and its tenant; any other is a plain denial |
| `Guarantees.TenantIsolation` | server/internal/server/authorization.go:80-126 | a response to a user that has an organization reports the user's tenant, which is the organization's; on resources left to the handler it names none |
| `Guarantees.ForeignProjectDenied` | server/internal/server/authorization.go:248-263 | a request for a project of another tenant is denied |
| `Guarantees.KeyTenants` | server/internal/server/authorization.go:28-63 | responses to an API key are tenant-coherent if and only if its record is |
| `Guarantees.KeyTenantNotCoherent` | server/internal/server/authorization.go:28-63 | accepted lists and a request answered about an organization of another tenant than the response reports |
| `Guarantees.ResponseEnvs` | server/internal/server/authorization.go:313-320 | the environments of any response are an expansion over the clusters of its tenant |
| `Guarantees.EnvsOfTenant` | server/internal/server/authorization.go:313-320 | every environment of any response, on both paths, is on an upstream cluster of the response's tenant |
| `Guarantees.OrganizationRoleMeaning` | server/internal/server/authorization.go:223-229 | the role found is that of the first listed membership, in both directions |
| `Guarantees.ProjectRoleMeaning` | server/internal/server/authorization.go:215-221 | the same for project roles |
| `Guarantees.PermittedMeaning` | server/internal/server/authorization.go:166-194 | the role check is exactly the four ways in which listed roles grant a scope |
| `Guarantees.AuthorizedExactly` | server/internal/server/authorization.go:95-126 | a user is authorized if and only if a project is selected and the listed roles on it grant the scope |
| `Guarantees.ReaderWithoutProjectRole` | server/internal/server/authorization.go:172-180 | an organization reader with no membership in the project is not authorized, whatever the scopes |
| `Guarantees.PickedExactly` | server/internal/server/authorization.go:304-311 | what is picked is a candidate: the first default one, or the first when there is none, in both directions |
| `Guarantees.ExplicitProject` | server/internal/server/authorization.go:248-263 | a named project is selected if and only if it is listed and agrees with the named organization |
| `Guarantees.UnnamedSelection` | server/internal/server/authorization.go:287-300 | a request that names nothing gets the first default member project, else the first default of its organizations, else the first member project, else the first of its organizations |
| `Guarantees.AnsweredOrganization` | server/internal/server/authorization.go:95-126 | a user is answered about the selected project's organization if it has a role there, and denied otherwise |
| `Guarantees.OrganizationHonoured` | server/internal/server/authorization.go:265-285 | a response to a user who named an organization is about that one if and only if a project was named too or the memberships recorded under the organization do not divert the choice |
| `Guarantees.OrganizationAlwaysHonoured` | server/internal/server/authorization.go:265-285 | it always is when memberships are recorded under their project's organization |
| `Guarantees.OrganizationNotHonoured` | server/internal/server/authorization.go:265-285 | accepted lists for which a request that names one organization is answered, and authorized, about another, whether both are of one tenant or not |
| `Guarantees.ForeignOrganization` | server/internal/server/authorization.go:265-285 | a user who names an organization of another tenant is denied if and only if a project was named too, the organization is not listed, the choice is not diverted, or there is no role where it is diverted to |
| `Guarantees.ForeignOrganizationDenied` | server/internal/server/authorization.go:265-285 | it is always denied when memberships are recorded under their project's organization |
| `Guarantees.RunRefinement` | server/internal/server/authorization.go:17-127 | after any run of updates, every request is answered as the scans of the last committed lists answer it |
| `Guarantees.NothingBeforeSync` | server/internal/cache/cache.go:90-112 | before the first commit, after any run, every answer that is no error is a denial |
| `Interleaving.GenerationsOrdered` | server/internal/cache/cache.go:386-408 | the reads of a request see committed generations that never go back |
| `Interleaving.InterleavedIsReplay` | server/internal/cache/cache.go:152-227 | an interleaved request is a replay of its reads over that sequence of generations |
| `Interleaving.ReadKeepsOutcome` | server/internal/server/authorization.go:29-126 | no read changes the answer a request is heading for on the content it reads |
| `Interleaving.StableSuffix` | server/internal/server/authorization.go:29-126 | once the content stays, the answer is settled by what was read before and that content |
| `Interleaving.AtomicWithoutCommit` | server/internal/server/authorization.go:17-127 | with no commit between the reads the answer is the atomic decision on one committed generation |
| `Interleaving.SuffixFinishes` | server/internal/server/authorization.go:29-126 | once the content stays, a request finishes within that bound, with the answer it was heading for |
| `Interleaving.AtomicFinishes` | server/internal/server/authorization.go:17-127 | a request that sees one content only finishes, with the atomic decision on it |
| `TornReads.TornEnvs` | server/internal/server/authorization.go:313-320 | every environment of an interleaved response is on an upstream cluster that the lists of some committed generation, seen by a read, have under the response's tenant |
| `TornReads.ReplayTraced` | server/internal/server/authorization.go:74-126 | over any sequence of contents, the second read settles the tenant of a response and the fourth the organizations it can name |
| `TornReads.RoleTenant` | server/internal/cache/cache.go:365-384 | an organization in which a user has a role is of the user's tenant |
| `TornReads.TornCoherenceExactly` | server/internal/server/authorization.go:74-126 | however commits fall between the reads, a response is coherent if and only if the user's tenant is the same at the second and the fourth read |
| `TornReads.TornTenantCoherence` | server/internal/server/authorization.go:74-126 | while tenants do not change across commits, every response that names an organization is coherent in every commit that has it |
| `TornReads.TornResponse` | server/internal/server/authorization.go:74-126 | a run with one commit between two reads whose response mixes two tenants |
| `Decoder.SplitPieces` | ts/fetch.pb.ts:88-98 | cutting at newlines gives newline-free lines and rest, and joining them gives the text back |
| `Decoder.SplitUnique` | ts/fetch.pb.ts:88-98 | there is only one such cut |
| `Decoder.LinesGrow` | ts/fetch.pb.ts:87-98 | more text never changes the lines already complete |
| `Decoder.ParsedAll` | ts/fetch.pb.ts:91-92 | all lines yield a result if and only if each parses, and then they are the results in order |
| `Decoder.ParsedStops` | ts/fetch.pb.ts:91-92 | nothing is emitted from the first line on that does not parse |
| `Decoder.LineDecoder.constructor` | ts/fetch.pb.ts:75-78 | a new decoder is between chunks and has received nothing |
| `Decoder.LineDecoder.TakeLine` | ts/fetch.pb.ts:89-94 | at a newline, the line is parsed, its result emitted and the line cut off; nothing changes when it does not parse |
| `Decoder.LineDecoder.Transform` | ts/fetch.pb.ts:80-98 | what is emitted depends on the whole text only; lines and buffer together are the text; one iteration per code unit; fails exactly at the first line that does not parse |
| `Decoder.LineDecoder.Feed` | ts/fetch.pb.ts:80-98 | for every split of a text into chunks, also inside a surrogate pair: the same results, the same rest and as many iterations as code units |
| `Decoder.LineDecoder.FailsForGood` | ts/fetch.pb.ts:91-92 | text after a line that does not parse changes nothing |
| `Flatten.FlattenIsLastLeaf` | ts/fetch.pb.ts:172-201 | for every payload, a flattened key has the value of the last leaf whose path joins to it |
| `Flatten.FlattenConcat` | ts/fetch.pb.ts:176-201 | keys listed later win over the same keys listed earlier |
| `Flatten.LeafOfExactly` | ts/fetch.pb.ts:181-195 | exactly what is kept: strings but the empty one, true, numbers but zero, and non-empty arrays whose elements are all primitives, with their elements in order |
| `Flatten.LeavesAt` | ts/fetch.pb.ts:176-201 | the traversal visits exactly the leaves that paths lead to |
| `Flatten.PathRecoverable` | ts/fetch.pb.ts:179-179 | a path can be read back from its joined key if and only if it is dot-free and does not start with an empty key |
| `Flatten.OneLeafPerPath` | ts/fetch.pb.ts:176-201 | with distinct keys, a path leads to one leaf |
| `Flatten.DistinctKeys` | ts/fetch.pb.ts:179-179 | distinct leaves with recoverable paths have distinct flattened keys |
| `Flatten.FlattenExactly` | ts/fetch.pb.ts:172-201 | the flattened map of an invertible payload holds exactly its non-zero primitives and non-empty primitive arrays, each under its path |
| `PayloadTrees.PruneLeaves` | ts/fetch.pb.ts:181-195 | pruning keeps exactly the leaves that flattening keeps |
| `PayloadTrees.SameForest` | ts/fetch.pb.ts:172-201 | pruned payloads with the same leaves are equal |
| `PayloadTrees.LeafEnds` | ts/fetch.pb.ts:191-195 | no leaf lies below another |
| `PayloadTrees.FlattenIsRegular` | ts/fetch.pb.ts:172-201 | the flattened keys of an invertible payload split and join back, and none continues another |
| `PayloadTrees.RoundTrip` | ts/fetch.pb.ts:172-201 | the payload with zero, empty and unsupported parts pruned is rebuilt from the flattened form if and only if every leaf has a recoverable path |
| `PayloadTrees.FlattenLoses` | ts/fetch.pb.ts:172-201 | payloads with a dotted key, and with an empty key around others, that flatten to what a different pruned payload flattens to |
| `PayloadTrees.FlattenInjective` | ts/fetch.pb.ts:172-201 | two invertible payloads flatten to the same map if and only if they agree up to pruning and key order |
| `SearchParams.PairsCount` | ts/fetch.pb.ts:217-229 | how often each pair is rendered, for keys listed in any order |
| `SearchParams.RenderedPairs` | ts/fetch.pb.ts:211-229 | a scalar is rendered once and an array once per element, and nothing else; a non-empty key at any position of the URL path parameters not at all |
| `SearchParams.RenderedInOrder` | ts/fetch.pb.ts:217-229 | the pairs of one name are exactly those of its value, elements in order, and none when it is in the URL path |
| `SearchParams.RenderedLeaves` | ts/fetch.pb.ts:211-229 | for an invertible payload, a pair is rendered if and only if its name is the path of a leaf, not in the URL path, with that text among its values |
| `Interceptor.NewUserInfoFromAuthorizeResponse` | pkg/auth/userinfo.go:47-68 | copies the response, environments in order; defined exactly on responses with all three messages |
| `Interceptor.MethodIsLastComponent` | pkg/auth/interceptor.go:89-90 | the method is what follows the last slash of the full name |
| `Interceptor.RequestRead` | pkg/auth/interceptor.go:84-112 | the request has the first values of the organization and project headers, the token without a leading "Bearer ", and "read" exactly for a last method component that starts with Get or List |
| `Interceptor.HTTPRequestRead` | pkg/auth/interceptor.go:121-140 | the same for HTTP headers, with "read" exactly for GET |
| `Interceptor.AuthInterceptor.Unary` | pkg/auth/interceptor.go:76-118 | the handler runs for an excluded method without user information, else exactly as the answer allows; an internal error exactly on an error, a denial exactly on a response that does not authorize; a client of the server never makes it panic |
| `Interceptor.AuthInterceptor.InterceptHTTPRequest` | pkg/auth/interceptor.go:121-151 | when the status is 200, 401 or 500, in both directions; user information exactly with 200, copied from the response; a client of the server never makes it panic |
| `Interceptor.AuthorizedIsComplete` | server/internal/server/authorization.go:28-126 | an authorizing response has user, organization and project, whatever generations its reads saw |
| `Interceptor.ServedIsComplete` | pkg/auth/interceptor.go:106-116 | with a client of the server every authorizing response can be copied and no answer makes the interceptor panic |
| `Interceptor.AnswersFromIsServed` | pkg/auth/interceptor.go:153-168 | a client answered from one content of the cache is a client of the server |
| `Interceptor.DecisionAllowed` | server/internal/server/authorization.go:17-127 | on both paths, the answer lets a call through if and only if the raw lists and the introspected user allow the request |
| `Interceptor.HandlerRunsExactly` | pkg/auth/interceptor.go:84-116 | a call that is not excluded reaches the handler if and only if it has a token and the raw lists allow the request read from its headers, whose scope is the method's resource and capability |
| `Interceptor.HandlerSees` | pkg/auth/interceptor.go:115-116 | what the handler sees, every field on raw records: the key record with its listed project, or the user with its tenant and, for a project-scoped resource, the selected project and organization of that tenant |
| `Interceptor.HandlerSeesRequested` | pkg/auth/interceptor.go:101-116 | a user's handled call sees the project of the project header, and the organization of the organization header if there is one too |

## Left out

- Servers, clients, health and process wiring: serving and configuration around the calls modelled here.
- Token validation: the introspection result of a request is a parameter that takes every value.
- `userid.Normalize`: an arbitrary function of the e-mail address; its package is not part of this model.
- Clock, ticker, metrics and context cancellation: updates are an arbitrary sequence of fetches and commits, the time
  of a commit is a parameter, and cancellation is one possible outcome of waiting.
- Mutexes: every locked section is one step; that the mutex provides this is taken for granted.
- Pointers: cached records are never changed after they are built, so they are values here and sharing is not seen.
- Unset upstream messages: an API key, cluster or organization is taken to have its nested messages set; the update
  would panic on a missing one. The upstream API packages are not part of this model.
- Error texts of project selection: they are dropped by the caller before they can be seen.
- The update's loops are one method each, called in the order of the source; the list calls are made before.
- The roles' scopes: an arbitrary map rather than a deployment's values; role enumerations have a value for unknown
  codes.
- `AuthorizeWorker`, the worker interceptors and client, cluster information and metadata helpers: single lookups and
  header copies.
- `JSON.parse` and taking the result of a line: one partial function; the error state of the stream after a failure
  is the end of the run.
- URL encoding, the text of numbers, and the order in which JavaScript lists integer-like keys: any text for a
  primitive and any order of keys.
- Prototype inspection: what is no primitive, array or plain object is one variant of a value, and is dropped.
- Objects without a prototype: inspecting one throws in the source; such a payload has no value here.
- Text outside the decoder: sequences of characters rather than of bytes or UTF-16 code units. Only equality,
  prefixes, dots, slashes and concatenation matter there.
