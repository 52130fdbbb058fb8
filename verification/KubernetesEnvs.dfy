/** Expansion of a project's namespace and assignments over the clusters of a tenant. */
module KubernetesEnvs {
  import opened Wrappers
  import opened Lists
  import opened Records

  datatype Env = Env(clusterID: string, clusterName: string, namespace: string)

  function AssignedClusterOf(a: Assignment): string { a.clusterID }
  function NamespaceOf(a: Assignment): string { a.namespace }

  function At(c: C, namespace: string): Env {
    Env(c.id, c.name, namespace)
  }

  /** The namespaces for every cluster: the project's own, then those of assignments that name no cluster. */
  function Shared(namespace: string, assignments: seq<Assignment>): seq<string> {
    (if namespace != "" then [namespace] else []) + Group(assignments, AssignedClusterOf, NamespaceOf, "")
  }

  /** The namespace of each cluster that an assignment names; a later assignment wins. */
  function Own(assignments: seq<Assignment>): map<string, string> {
    if assignments == [] then map[]
    else
      var n := |assignments| - 1;
      var m := Own(assignments[..n]);
      if assignments[n].clusterID == "" then m else m[assignments[n].clusterID := assignments[n].namespace]
  }

  /** One environment of `c` for each namespace of `shared` other than `found`, in order. */
  function Others(c: C, shared: seq<string>, found: string): seq<Env> {
    if shared == [] then []
    else
      var n := |shared| - 1;
      Others(c, shared[..n], found) + (if shared[n] == found then [] else [At(c, shared[n])])
  }

  function ClusterEnvs(c: C, own: Option<string>, shared: seq<string>): seq<Env> {
    match own
    case Some(ns) => [At(c, ns)] + Others(c, shared, ns)
    case None => Others(c, shared, "")
  }

  /** The environments of all clusters, one cluster after the other. */
  function Expand(shared: seq<string>, own: map<string, string>, clusters: seq<C>): seq<Env> {
    if clusters == [] then []
    else
      var n := |clusters| - 1;
      Expand(shared, own, clusters[..n]) + ClusterEnvs(clusters[n], Lookup(own, clusters[n].id), shared)
  }

  function Envs(namespace: string, assignments: seq<Assignment>, clusters: seq<C>): seq<Env> {
    Expand(Shared(namespace, assignments), Own(assignments), clusters)
  }

  /** A cluster's own namespace is that of the last assignment naming it; the empty ID names no cluster. */
  lemma {:induction false} OwnIsLast(assignments: seq<Assignment>, clusterID: string)
    ensures Lookup(Own(assignments), clusterID)
         == if clusterID == "" then None
            else match LastWith(assignments, AssignedClusterOf, clusterID) {
                   case Some(a) => Some(a.namespace) case None => None
                 }
  {
    if assignments != [] {
      OwnIsLast(assignments[..|assignments| - 1], clusterID);
    }
  }

  lemma SharedSnoc(namespace: string, assignments: seq<Assignment>, a: Assignment)
    ensures Shared(namespace, assignments + [a])
         == Shared(namespace, assignments) + (if a.clusterID == "" then [a.namespace] else [])
  {
    GroupSnoc(assignments, a, AssignedClusterOf, NamespaceOf, "");
  }

  method CollectNamespaces(namespace: string, assignments: seq<Assignment>)
    returns (nssForAllClusters: seq<string>, nssByCluster: map<string, string>)
    ensures nssForAllClusters == Shared(namespace, assignments)
    ensures nssByCluster == Own(assignments)
  {
    nssForAllClusters, nssByCluster := [], map[];
    if namespace != "" {
      nssForAllClusters := nssForAllClusters + [namespace];
    }
    for i := 0 to |assignments|
      invariant nssForAllClusters == Shared(namespace, assignments[..i])
      invariant nssByCluster == Own(assignments[..i])
    {
      var a := assignments[i];
      SharedSnoc(namespace, assignments[..i], a);
      assert assignments[..i + 1] == assignments[..i] + [a];
      assert assignments[..i + 1][..i] == assignments[..i];
      if a.clusterID == "" {
        nssForAllClusters := nssForAllClusters + [a.namespace];
      } else {
        nssByCluster := nssByCluster[a.clusterID := a.namespace];
      }
    }
    assert assignments[..|assignments|] == assignments;
  }

  method AppendClusterEnvs(envs: seq<Env>, c: C, nssForAllClusters: seq<string>, nssByCluster: map<string, string>)
    returns (r: seq<Env>)
    ensures r == envs + ClusterEnvs(c, Lookup(nssByCluster, c.id), nssForAllClusters)
  {
    r := envs;
    var foundNS := "";
    if c.id in nssByCluster {
      r := r + [Env(c.id, c.name, nssByCluster[c.id])];
      foundNS := nssByCluster[c.id];
    }
    ghost var own := r;
    for j := 0 to |nssForAllClusters|
      invariant r == own + Others(c, nssForAllClusters[..j], foundNS)
    {
      var ns := nssForAllClusters[j];
      assert nssForAllClusters[..j + 1][..j] == nssForAllClusters[..j];
      if ns == foundNS {
        continue;
      }
      r := r + [Env(c.id, c.name, ns)];
    }
    assert nssForAllClusters[..|nssForAllClusters|] == nssForAllClusters;
  }

  method AssignedKubernetesEnvs(namespace: string, assignments: seq<Assignment>, clusters: seq<C>)
    returns (envs: seq<Env>)
    ensures envs == Envs(namespace, assignments, clusters)
  {
    var nssForAllClusters, nssByCluster := CollectNamespaces(namespace, assignments);
    envs := [];
    for i := 0 to |clusters|
      invariant envs == Expand(nssForAllClusters, nssByCluster, clusters[..i])
    {
      PrefixSnoc(clusters, i);
      ExpandSnoc(nssForAllClusters, nssByCluster, clusters[..i], clusters[i]);
      envs := AppendClusterEnvs(envs, clusters[i], nssForAllClusters, nssByCluster);
    }
    assert clusters[..|clusters|] == clusters;
  }

  // How often each environment occurs.

  function IdentityOf(c: C): (string, string) {
    (c.id, c.name)
  }

  /** How often `ns` is given to a cluster whose own namespace is `own`. */
  function Multiplicity(shared: seq<string>, own: Option<string>, ns: string): nat {
    if own == Some(ns) then 1
    else if own == None && ns == "" then 0
    else multiset(shared)[ns]
  }

  lemma {:induction false} OthersCount(c: C, shared: seq<string>, found: string, e: Env)
    ensures multiset(Others(c, shared, found))[e]
         == if e != At(c, e.namespace) || e.namespace == found then 0 else multiset(shared)[e.namespace]
  {
    if shared != [] {
      var n := |shared| - 1;
      assert shared == shared[..n] + [shared[n]];
      OthersCount(c, shared[..n], found, e);
    }
  }

  lemma ClusterEnvsCount(c: C, own: Option<string>, shared: seq<string>, e: Env)
    ensures multiset(ClusterEnvs(c, own, shared))[e]
         == if e == At(c, e.namespace) then Multiplicity(shared, own, e.namespace) else 0
  {
    match own
    case Some(ns) => OthersCount(c, shared, ns, e);
    case None => OthersCount(c, shared, "", e);
  }

  lemma IdentitiesSnoc(clusters: seq<C>, c: C, id: (string, string))
    ensures multiset(Map(clusters + [c], IdentityOf))[id]
         == multiset(Map(clusters, IdentityOf))[id] + (if IdentityOf(c) == id then 1 else 0)
  {
    assert Map(clusters + [c], IdentityOf) == Map(clusters, IdentityOf) + [IdentityOf(c)];
  }

  lemma ExpandSnoc(shared: seq<string>, own: map<string, string>, clusters: seq<C>, c: C)
    ensures Expand(shared, own, clusters + [c])
         == Expand(shared, own, clusters) + ClusterEnvs(c, Lookup(own, c.id), shared)
  {
    assert (clusters + [c])[..|clusters|] == clusters;
  }

  lemma OneMore(k: nat, m: nat)
    ensures (k + 1) * m == k * m + m
  {
  }

  /** The number of occurrences of an environment, exactly: clusters so recorded, times the cluster's multiplicity. */
  lemma {:induction false} EnvMultiplicity(shared: seq<string>, own: map<string, string>, clusters: seq<C>, e: Env)
    ensures multiset(Expand(shared, own, clusters))[e]
         == multiset(Map(clusters, IdentityOf))[(e.clusterID, e.clusterName)]
            * Multiplicity(shared, Lookup(own, e.clusterID), e.namespace)
  {
    if clusters != [] {
      var n := |clusters| - 1;
      var rest, c, id := clusters[..n], clusters[n], (e.clusterID, e.clusterName);
      assert clusters == rest + [c];
      EnvMultiplicity(shared, own, rest, e);
      ExpandSnoc(shared, own, rest, c);
      ClusterEnvsCount(c, Lookup(own, c.id), shared, e);
      IdentitiesSnoc(rest, c, id);
      OneMore(multiset(Map(rest, IdentityOf))[id], Multiplicity(shared, Lookup(own, e.clusterID), e.namespace));
    }
  }

  ghost predicate Distinct<T>(s: seq<T>) {
    forall i, j | 0 <= i < j < |s| :: s[i] != s[j]
  }

  lemma {:induction false} DistinctCounts<T>(s: seq<T>, x: T)
    requires Distinct(s)
    ensures multiset(s)[x] == if x in s then 1 else 0
  {
    if s != [] {
      var n := |s| - 1;
      assert s == s[..n] + [s[n]];
      DistinctCounts(s[..n], x);
    }
  }

  lemma RepeatCounts<T>(s: seq<T>, i: nat, j: nat)
    requires i < j < |s| && s[i] == s[j]
    ensures multiset(s)[s[i]] >= 2
  {
    assert s == s[..j] + [s[j]] + s[j + 1..];
    assert s[..j][i] == s[i] && s[i] in multiset(s[..j]);
  }

  function ClusterIDOf(c: C): string { c.id }

  lemma DistinctIdentities(clusters: seq<C>, c: C)
    requires Distinct(Map(clusters, ClusterIDOf)) && c in clusters
    ensures multiset(Map(clusters, IdentityOf))[(c.id, c.name)] == 1
  {
    var ids, identities := Map(clusters, ClusterIDOf), Map(clusters, IdentityOf);
    forall i, j | 0 <= i < j < |identities| ensures identities[i] != identities[j] {
      assert ids[i] != ids[j];
    }
    DistinctCounts(identities, (c.id, c.name));
    var i :| 0 <= i < |clusters| && clusters[i] == c;
    assert identities[i] == (c.id, c.name);
  }

  /** Every environment is for one of the clusters. */
  lemma EnvNamesCluster(shared: seq<string>, own: map<string, string>, clusters: seq<C>, e: Env) returns (c: C)
    requires e in Expand(shared, own, clusters)
    ensures c in clusters && e == At(c, e.namespace)
  {
    var identities := Map(clusters, IdentityOf);
    EnvMultiplicity(shared, own, clusters, e);
    assert e in multiset(Expand(shared, own, clusters));
    assert (e.clusterID, e.clusterName) in multiset(identities);
    var i :| 0 <= i < |identities| && identities[i] == (e.clusterID, e.clusterName);
    c := clusters[i];
  }

  /** On this cluster the namespace is given at most once, however often it is shared. */
  predicate Suppressed(own: Option<string>, ns: string) {
    own == Some(ns) || (own == None && ns == "")
  }

  /** Every namespace shared more than once is suppressed on each cluster. */
  ghost predicate RepeatsSuppressed(shared: seq<string>, own: map<string, string>, clusters: seq<C>) {
    forall c, ns | c in clusters && multiset(shared)[ns] > 1 :: Suppressed(Lookup(own, c.id), ns)
  }

  lemma OneTimes(m: nat)
    ensures 1 * m == m
  {
  }

  /** With distinct clusters, what one of them gets is its multiplicity alone. */
  lemma DistinctClusters(shared: seq<string>, own: map<string, string>, clusters: seq<C>, c: C, ns: string)
    requires Distinct(Map(clusters, ClusterIDOf)) && c in clusters
    ensures multiset(Expand(shared, own, clusters))[At(c, ns)] == Multiplicity(shared, Lookup(own, c.id), ns)
  {
    DistinctIdentities(clusters, c);
    EnvMultiplicity(shared, own, clusters, At(c, ns));
    OneTimes(Multiplicity(shared, Lookup(own, c.id), ns));
  }

  lemma RepeatedEnv(shared: seq<string>, own: map<string, string>, clusters: seq<C>, i: nat, j: nat)
    requires Distinct(Map(clusters, ClusterIDOf))
    requires i < j < |Expand(shared, own, clusters)|
    requires Expand(shared, own, clusters)[i] == Expand(shared, own, clusters)[j]
    ensures !RepeatsSuppressed(shared, own, clusters)
  {
    var e := Expand(shared, own, clusters)[i];
    var c := EnvNamesCluster(shared, own, clusters, e);
    assert Multiplicity(shared, Lookup(own, c.id), e.namespace) >= 2 by {
      RepeatCounts(Expand(shared, own, clusters), i, j);
      DistinctClusters(shared, own, clusters, c, e.namespace);
    }
    assert !Suppressed(Lookup(own, c.id), e.namespace);
  }

  /**
   With distinct clusters, the environments are pairwise distinct exactly when every namespace shared more
   than once is suppressed on each cluster: it is the cluster's own, or it is empty and the cluster has none.
   */
  lemma DistinctEnvs(shared: seq<string>, own: map<string, string>, clusters: seq<C>)
    requires Distinct(Map(clusters, ClusterIDOf))
    ensures Distinct(Expand(shared, own, clusters)) <==> RepeatsSuppressed(shared, own, clusters)
  {
    var envs := Expand(shared, own, clusters);
    if Distinct(envs) {
      forall c, ns | c in clusters && multiset(shared)[ns] > 1 ensures Suppressed(Lookup(own, c.id), ns) {
        DistinctClusters(shared, own, clusters, c, ns);
        DistinctCounts(envs, At(c, ns));
      }
    } else {
      var i, j :| 0 <= i < j < |envs| && envs[i] == envs[j];
      RepeatedEnv(shared, own, clusters, i, j);
    }
  }

  lemma {:induction false} OthersBound(c: C, shared: seq<string>, found: string)
    ensures |Others(c, shared, found)| <= |shared|
  {
    if shared != [] {
      OthersBound(c, shared[..|shared| - 1], found);
    }
  }

  lemma ClusterEnvsBound(c: C, own: Option<string>, shared: seq<string>)
    ensures |ClusterEnvs(c, own, shared)| <= 1 + |shared|
  {
    match own
    case Some(ns) => OthersBound(c, shared, ns);
    case None => OthersBound(c, shared, "");
  }

  /** No more than one environment per cluster and shared namespace, plus one own per cluster. */
  lemma {:induction false} EnvsBound(shared: seq<string>, own: map<string, string>, clusters: seq<C>)
    ensures |Expand(shared, own, clusters)| <= |clusters| * (1 + |shared|)
  {
    if clusters != [] {
      var n := |clusters| - 1;
      EnvsBound(shared, own, clusters[..n]);
      ClusterEnvsBound(clusters[n], Lookup(own, clusters[n].id), shared);
      OneMore(n, 1 + |shared|);
    }
  }

  lemma {:induction false} ExpandConcat(shared: seq<string>, own: map<string, string>, a: seq<C>, b: seq<C>)
    ensures Expand(shared, own, a + b) == Expand(shared, own, a) + Expand(shared, own, b)
  {
    if b == [] {
      assert a + b == a;
    } else {
      var n := |b| - 1;
      ConcatSnoc(a, b);
      ExpandConcat(shared, own, a, b[..n]);
      ExpandSnoc(shared, own, a + b[..n], b[n]);
      Associative(Expand(shared, own, a), Expand(shared, own, b[..n]), ClusterEnvs(b[n], Lookup(own, b[n].id), shared));
    }
  }

  /** The environments of a cluster are contiguous, in cluster order, and start with its own namespace. */
  lemma Grouped(shared: seq<string>, own: map<string, string>, before: seq<C>, c: C, after: seq<C>)
    ensures Expand(shared, own, before + [c] + after)
         == Expand(shared, own, before) + ClusterEnvs(c, Lookup(own, c.id), shared) + Expand(shared, own, after)
    ensures c.id in own ==> ClusterEnvs(c, Lookup(own, c.id), shared)[0] == At(c, own[c.id])
  {
    ExpandConcat(shared, own, before + [c], after);
    ExpandSnoc(shared, own, before, c);
  }

  // The expansion, in terms of the project's namespace and the positions of its assignments alone.

  ghost predicate LastNaming(assignments: seq<Assignment>, i: nat, clusterID: string) {
    && i < |assignments|
    && assignments[i].clusterID == clusterID
    && forall j | i < j < |assignments| :: assignments[j].clusterID != clusterID
  }

  /** The last assignment that names the cluster gives it this namespace. */
  ghost predicate Given(assignments: seq<Assignment>, clusterID: string, ns: string) {
    clusterID != "" && exists i: nat :: LastNaming(assignments, i, clusterID) && assignments[i].namespace == ns
  }

  /** No assignment names the cluster. */
  ghost predicate NotGiven(assignments: seq<Assignment>, clusterID: string) {
    clusterID == "" || forall i | 0 <= i < |assignments| :: assignments[i].clusterID != clusterID
  }

  lemma OwnIsGiven(assignments: seq<Assignment>, clusterID: string)
    ensures match Lookup(Own(assignments), clusterID)
            case Some(ns) => Given(assignments, clusterID, ns) && !NotGiven(assignments, clusterID)
            case None => NotGiven(assignments, clusterID) && forall ns :: !Given(assignments, clusterID, ns)
  {
    OwnIsLast(assignments, clusterID);
    assert forall i | 0 <= i < |assignments| :: AssignedClusterOf(assignments[i]) == assignments[i].clusterID;
    if clusterID != "" && LastWith(assignments, AssignedClusterOf, clusterID).Some? {
      var i := LastWithAt(assignments, AssignedClusterOf, clusterID);
      assert LastNaming(assignments, i, clusterID);
    } else {
      forall ns ensures !Given(assignments, clusterID, ns) {
        assert clusterID != "" ==> NotGiven(assignments, clusterID);
      }
    }
  }

  lemma GivenOnce(assignments: seq<Assignment>, clusterID: string, a: string, b: string)
    requires Given(assignments, clusterID, a) && Given(assignments, clusterID, b)
    ensures a == b
  {
    var i: nat :| LastNaming(assignments, i, clusterID) && assignments[i].namespace == a;
    var j: nat :| LastNaming(assignments, j, clusterID) && assignments[j].namespace == b;
    assert i == j;
  }

  /** How often a namespace is for all clusters: as the project's own, and by assignments that name no cluster. */
  function TimesShared(namespace: string, assignments: seq<Assignment>, ns: string): nat {
    (if namespace != "" && ns == namespace then 1 else 0) + multiset(assignments)[Assignment("", ns)]
  }

  lemma {:induction false} SharedCount(namespace: string, assignments: seq<Assignment>, ns: string)
    ensures multiset(Shared(namespace, assignments))[ns] == TimesShared(namespace, assignments, ns)
  {
    if assignments == [] {
      assert Group(assignments, AssignedClusterOf, NamespaceOf, "") == [];
    } else {
      var n := |assignments| - 1;
      assert assignments == assignments[..n] + [assignments[n]];
      SharedCount(namespace, assignments[..n], ns);
      SharedSnoc(namespace, assignments[..n], assignments[n]);
    }
  }

  /**
   How often a cluster gets a namespace, when the clusters are distinct. Once if it is the one that the last
   assignment naming the cluster gives; never if it is empty and no assignment names the cluster; and else once for
   the project's own namespace and once for every assignment of it to all clusters.
   */
  lemma EnvCount(namespace: string, assignments: seq<Assignment>, clusters: seq<C>, c: C, ns: string)
    requires c in clusters && forall i, j | 0 <= i < j < |clusters| :: clusters[i].id != clusters[j].id
    ensures multiset(Envs(namespace, assignments, clusters))[Env(c.id, c.name, ns)]
         == if Given(assignments, c.id, ns) then 1
            else if ns == "" && NotGiven(assignments, c.id) then 0
            else TimesShared(namespace, assignments, ns)
  {
    DistinctClusters(Shared(namespace, assignments), Own(assignments), clusters, c, ns);
    OwnIsGiven(assignments, c.id);
    SharedCount(namespace, assignments, ns);
    var own := Lookup(Own(assignments), c.id);
    if own.Some? && Given(assignments, c.id, ns) {
      GivenOnce(assignments, c.id, own.value, ns);
    }
  }

  /** Every environment is for one of the clusters. */
  lemma EnvOfCluster(namespace: string, assignments: seq<Assignment>, clusters: seq<C>, e: Env)
    requires e in Envs(namespace, assignments, clusters)
    ensures exists i :: 0 <= i < |clusters| && clusters[i].id == e.clusterID && clusters[i].name == e.clusterName
  {
    var c := EnvNamesCluster(Shared(namespace, assignments), Own(assignments), clusters, e);
    var i :| 0 <= i < |clusters| && clusters[i] == c;
  }

  /** Every cluster is spared the namespaces that are shared more than once. */
  ghost predicate RepeatsGiven(namespace: string, assignments: seq<Assignment>, clusters: seq<C>) {
    forall c, ns | c in clusters && TimesShared(namespace, assignments, ns) > 1 ::
      Given(assignments, c.id, ns) || (ns == "" && NotGiven(assignments, c.id))
  }

  lemma RepeatsMean(namespace: string, assignments: seq<Assignment>, clusters: seq<C>)
    ensures RepeatsSuppressed(Shared(namespace, assignments), Own(assignments), clusters)
       <==> RepeatsGiven(namespace, assignments, clusters)
  {
    var shared, own := Shared(namespace, assignments), Own(assignments);
    if RepeatsSuppressed(shared, own, clusters) {
      forall c, ns | c in clusters && TimesShared(namespace, assignments, ns) > 1
        ensures Given(assignments, c.id, ns) || (ns == "" && NotGiven(assignments, c.id))
      {
        SharedCount(namespace, assignments, ns);
        SuppressedMeans(assignments, c.id, ns);
      }
    }
    if RepeatsGiven(namespace, assignments, clusters) {
      forall c, ns | c in clusters && multiset(shared)[ns] > 1 ensures Suppressed(Lookup(own, c.id), ns) {
        SharedCount(namespace, assignments, ns);
        SuppressedMeans(assignments, c.id, ns);
      }
    }
  }

  /** With distinct clusters, no environment repeats exactly when no cluster gets a namespace shared repeatedly. */
  lemma EnvsDistinct(namespace: string, assignments: seq<Assignment>, clusters: seq<C>)
    requires forall i, j | 0 <= i < j < |clusters| :: clusters[i].id != clusters[j].id
    ensures Distinct(Envs(namespace, assignments, clusters)) <==> RepeatsGiven(namespace, assignments, clusters)
  {
    DistinctEnvs(Shared(namespace, assignments), Own(assignments), clusters);
    RepeatsMean(namespace, assignments, clusters);
  }

  lemma SuppressedMeans(assignments: seq<Assignment>, clusterID: string, ns: string)
    ensures Suppressed(Lookup(Own(assignments), clusterID), ns)
       <==> Given(assignments, clusterID, ns) || (ns == "" && NotGiven(assignments, clusterID))
  {
    OwnIsGiven(assignments, clusterID);
    var own := Lookup(Own(assignments), clusterID);
    if own.Some? && Given(assignments, clusterID, ns) {
      GivenOnce(assignments, clusterID, own.value, ns);
    }
  }

  /** Per cluster, at most one environment each for an assignment naming it, for the project and for each other one. */
  lemma EnvsLimit(namespace: string, assignments: seq<Assignment>, clusters: seq<C>) returns (at: seq<nat>)
    ensures PositionsOf(at, assignments, (a: Assignment) => a.clusterID == "")
    ensures |Envs(namespace, assignments, clusters)|
         <= |clusters| * (1 + ((if namespace != "" then 1 else 0) + |at|))
  {
    at := GroupAt(assignments, AssignedClusterOf, NamespaceOf, "");
    SamePositions(at, assignments, (a: Assignment) => AssignedClusterOf(a) == "", (a: Assignment) => a.clusterID == "");
    EnvsBound(Shared(namespace, assignments), Own(assignments), clusters);
  }

  function OwnPart(c: C, own: Option<string>): seq<Env> {
    match own
    case Some(ns) => [Env(c.id, c.name, ns)]
    case None => []
  }

  function NamespacePart(c: C, namespace: string, found: string): seq<Env> {
    if namespace != "" && namespace != found then [Env(c.id, c.name, namespace)] else []
  }

  function AssignedPart(c: C, assignments: seq<Assignment>, at: seq<nat>): seq<Env>
    requires Within(at, |assignments|)
  {
    seq(|at|, k requires 0 <= k < |at| => Env(c.id, c.name, assignments[at[k]].namespace))
  }

  lemma OthersConcat(c: C, a: seq<string>, b: seq<string>, found: string)
    ensures Others(c, a + b, found) == Others(c, a, found) + Others(c, b, found)
  {
    if b == [] {
      assert a + b == a;
    } else {
      var n := |b| - 1;
      assert (a + b)[..|a| + n] == a + b[..n];
      OthersConcat(c, a, b[..n], found);
      Associative(Others(c, a, found), Others(c, b[..n], found), if b[n] == found then [] else [At(c, b[n])]);
    }
  }

  lemma NextAssigned(c: C, before: seq<Assignment>, a: Assignment, found: string)
    ensures Others(c, Group(before + [a], AssignedClusterOf, NamespaceOf, ""), found)
         == Others(c, Group(before, AssignedClusterOf, NamespaceOf, ""), found)
            + (if a.clusterID == "" && a.namespace != found then [Env(c.id, c.name, a.namespace)] else [])
  {
    var shared := Group(before, AssignedClusterOf, NamespaceOf, "");
    GroupSnoc(before, a, AssignedClusterOf, NamespaceOf, "");
    if a.clusterID == "" {
      assert (shared + [a.namespace])[..|shared|] == shared;
    } else {
      assert shared + [] == shared;
    }
  }

  lemma AssignedSnoc(c: C, before: seq<Assignment>, a: Assignment, at: seq<nat>)
    requires Within(at, |before|)
    ensures AssignedPart(c, before + [a], at) == AssignedPart(c, before, at)
    ensures AssignedPart(c, before + [a], at + [|before|])
         == AssignedPart(c, before, at) + [Env(c.id, c.name, a.namespace)]
  {
  }

  ghost predicate Within(at: seq<nat>, n: nat) {
    forall k | 0 <= k < |at| :: at[k] < n
  }

  lemma {:induction false} AssignedInOrder(c: C, assignments: seq<Assignment>, found: string) returns (at: seq<nat>)
    ensures PositionsOf(at, assignments, (a: Assignment) => a.clusterID == "" && a.namespace != found)
    ensures Within(at, |assignments|)
    ensures Others(c, Group(assignments, AssignedClusterOf, NamespaceOf, ""), found) == AssignedPart(c, assignments, at)
  {
    if assignments == [] {
      at := [];
      assert Group(assignments, AssignedClusterOf, NamespaceOf, "") == [];
    } else {
      var n := |assignments| - 1;
      var before, a := assignments[..n], assignments[n];
      at := AssignedInOrder(c, before, found);
      assert assignments == before + [a];
      NextAssigned(c, before, a, found);
      AssignedSnoc(c, before, a, at);
      NextPosition(at, before, a, (x: Assignment) => x.clusterID == "" && x.namespace != found);
      if a.clusterID == "" && a.namespace != found {
        at := at + [n];
      }
    }
  }

  /**
   What a cluster gets, in order: the namespace given to it by the last assignment naming it, then the project's own
   namespace, then those assigned to all clusters, in the order of the assignments. The latter two leave out the
   first, and empty namespaces if there is no first. It stands between what the clusters before and after it get.
   */
  lemma EnvsInOrder(namespace: string, assignments: seq<Assignment>, before: seq<C>, c: C, after: seq<C>,
                    own: Option<string>)
    returns (at: seq<nat>)
    requires if own.Some? then Given(assignments, c.id, own.value) else NotGiven(assignments, c.id)
    ensures var found := if own.Some? then own.value else "";
            && PositionsOf(at, assignments, (a: Assignment) => a.clusterID == "" && a.namespace != found)
            && Within(at, |assignments|)
            && Envs(namespace, assignments, before + [c] + after)
               == Envs(namespace, assignments, before)
                  + (OwnPart(c, own) + NamespacePart(c, namespace, found) + AssignedPart(c, assignments, at))
                  + Envs(namespace, assignments, after)
  {
    var shared, found := Shared(namespace, assignments), if own.Some? then own.value else "";
    Grouped(shared, Own(assignments), before, c, after);
    OwnIsGiven(assignments, c.id);
    if own.Some? {
      GivenOnce(assignments, c.id, own.value, Lookup(Own(assignments), c.id).value);
    }
    var first := if namespace != "" then [namespace] else [];
    OthersConcat(c, first, Group(assignments, AssignedClusterOf, NamespaceOf, ""), found);
    at := AssignedInOrder(c, assignments, found);
    assert Others(c, first, found) == NamespacePart(c, namespace, found);
    Associative(OwnPart(c, own), NamespacePart(c, namespace, found), AssignedPart(c, assignments, at));
  }
}
