/** Waiting for a cluster. A reconcile that finds its cluster at zero, or its reference not allowed,
    returns no error, so nothing retries it; the watch on clusters has to wake it. Many resources,
    many clusters, a work queue, and a cluster cache that lags the API server. The controllers of
    the topology kinds watch clusters, that of SuperStreams does not. */
module WakeUp {
  import opened Types
  import opened ClusterReferences

  /** A reconcile of the resource with this reference: not yet resolved, or resolved. */
  datatype Running = Unresolved(cluster: ClusterRef) | Resolved(cluster: ClusterRef, waits: bool)

  datatype State = State(
    stored: map<Key, Cluster>,          // clusters at the API server
    world: World,                       // what reconciles read; its clusters are the cached ones
    resources: map<Key, ClusterRef>,    // as the cache lists them
    pending: set<Key>,                  // the work queue
    running: map<Key, Running>,
    paused: set<Key>,                   // last reconcile ended without an error and without a connection
    done: set<Key>)                     // last reconcile ended without an error after all

  /** Nudged: something else that the controller watches changed, such as the credentials secret of a
      User or a child of a SuperStream. */
  datatype Event =
    | ClusterChanges(k: Key, c: Option<Cluster>)
    | WorldChanges(cachedSecrets: map<Key, Got<Secret>>, secrets: map<Key, Got<Secret>>, services: map<Key, Got<Service>>)
    | Delivers(k: Key)
    | ResourceChanges(r: Key, cluster: ClusterRef)
    | ResourceGoes(r: Key)
    | Begins(r: Key)
    | Resolves(r: Key)
    | Ends(r: Key, failed: bool)
    | Nudged(r: Key)
    | Restarts

  datatype Controller = Topology | SuperStreams

  /** Which controller it is, and two settings of the operator that resolution depends on. */
  datatype Settings = Settings(controller: Controller, domain: string, plainHttp: bool)

  function CachedCluster(m: map<Key, Cluster>, k: Key): Option<Cluster> {
    if k in m then Some(m[k]) else None
  }

  /** The keys rabbitmqClusterToRequests returns for these resources, where there is a watch. */
  function Requests(st: Settings, resources: map<Key, ClusterRef>, k: Key): set<Key> {
    set r | r in resources && st.controller.Topology? && Selects(resources[r], r.namespace, k)
  }

  function ClusterKey(r: Key, cluster: ClusterRef): Key {
    Key(ReferenceNamespace(cluster, r.namespace), cluster.name)
  }

  /** The resolutions on which a reconcile ends with nil and without a connection. A SuperStream reads
      its cluster by name only, and only asks whether it is allowed. */
  predicate Waits(st: Settings, w: World, r: Key, cluster: ClusterRef) {
    match st.controller
    case Topology =>
      var p := ParseReference(w, cluster, r.namespace, st.domain, st.plainHttp);
      p.AtZero? || p.NotAllowed?
    case SuperStreams =>
      var k := ClusterKey(r, cluster);
      cluster.name != "" && k in w.clusters && !Allowed(cluster, r.namespace, w.clusters[k].allowed)
  }

  function NewWorld(w: World, cachedSecrets: map<Key, Got<Secret>>, secrets: map<Key, Got<Secret>>, services: map<Key, Got<Service>>): World {
    w.(cachedSecrets := cachedSecrets, secrets := secrets, services := services)
  }

  function Step(st: Settings, s: State, e: Event): State {
    match e
    case ClusterChanges(k, c) =>
      s.(stored := if c.Some? then s.stored[k := c.value] else s.stored - {k})
    case WorldChanges(cachedSecrets, secrets, services) => s.(world := NewWorld(s.world, cachedSecrets, secrets, services))
    case Delivers(k) =>
      s.(world := WithCluster(s.world, k, CachedCluster(s.stored, k)), pending := s.pending + Requests(st, s.resources, k))
    case ResourceChanges(r, cluster) => s.(resources := s.resources[r := cluster], pending := s.pending + {r})
    case ResourceGoes(r) => s.(resources := s.resources - {r}, pending := s.pending + {r})
    case Begins(r) =>
      if r in s.pending && r !in s.running then
        if r in s.resources then
          s.(pending := s.pending - {r}, running := s.running[r := Unresolved(s.resources[r])])
        else s.(pending := s.pending - {r}, paused := s.paused - {r})
      else s
    case Resolves(r) =>
      if r in s.running && s.running[r].Unresolved? then
        var cluster := s.running[r].cluster;
        s.(running := s.running[r := Running.Resolved(cluster, Waits(st, s.world, r, cluster))])
      else s
    case Ends(r, failed) =>
      if r in s.running && s.running[r].Resolved? then
        var t := s.(running := s.running - {r}, paused := s.paused - {r}, done := s.done - {r});
        if s.running[r].waits then t.(paused := t.paused + {r})
        else if failed then t.(pending := t.pending + {r})
        else t.(done := t.done + {r})
      else s
    case Nudged(r) => s.(pending := s.pending + {r})
    case Restarts => s.(pending := s.resources.Keys, running := map[], paused := {}, done := {})
  }

  function Run(st: Settings, s: State, es: seq<Event>): State
    decreases |es|
  {
    if es == [] then s else Run(st, Step(st, s, es[0]), es[1..])
  }

  /** The cluster watch covers the reference. */
  predicate Watched(st: Settings, cluster: ClusterRef) {
    st.controller.Topology? && cluster.connectionSecret.None?
  }

  ghost predicate Inv(st: Settings, s: State) {
    && (forall r :: r in s.paused && r in s.resources && r !in s.pending && r !in s.running && Watched(st, s.resources[r]) ==>
          Waits(st, s.world, r, s.resources[r]))
    && (forall r :: r in s.running && r in s.resources && r !in s.pending ==> s.resources[r] == s.running[r].cluster)
    && (forall r :: r in s.running && r in s.resources && r !in s.pending && s.running[r].Resolved? && s.running[r].waits
                    && Watched(st, s.running[r].cluster) ==>
          Waits(st, s.world, r, s.running[r].cluster))
  }

  /** A delivered change leaves alone the resolution of every resource it does not wake. */
  lemma DeliveryKeeps(st: Settings, s: State, k: Key, r: Key)
    requires r in s.resources && r !in Requests(st, s.resources, k) && st.controller.Topology?
    ensures Waits(st, WithCluster(s.world, k, CachedCluster(s.stored, k)), r, s.resources[r])
            == Waits(st, s.world, r, s.resources[r])
  {
    UnselectedUnchanged(s.world, s.resources[r], r.namespace, st.domain, st.plainHttp, k, CachedCluster(s.stored, k));
  }

  /** Whether a reference by name waits does not depend on secrets and services. */
  lemma WorldChangeKeeps(st: Settings, w: World, cachedSecrets: map<Key, Got<Secret>>, secrets: map<Key, Got<Secret>>,
                         services: map<Key, Got<Service>>, r: Key, cluster: ClusterRef)
    requires Watched(st, cluster)
    ensures Waits(st, NewWorld(w, cachedSecrets, secrets, services), r, cluster) == Waits(st, w, r, cluster)
  {
    ReportedErrors(w, cluster, r.namespace, st.domain, st.plainHttp);
    ReportedErrors(NewWorld(w, cachedSecrets, secrets, services), cluster, r.namespace, st.domain, st.plainHttp);
  }

  lemma StepKeeps(st: Settings, s: State, e: Event)
    requires Inv(st, s)
    ensures Inv(st, Step(st, s, e))
  {
    match e
    case Delivers(k) =>
      forall r | r in s.resources && r !in Requests(st, s.resources, k) && st.controller.Topology?
        ensures Waits(st, WithCluster(s.world, k, CachedCluster(s.stored, k)), r, s.resources[r])
                == Waits(st, s.world, r, s.resources[r])
      {
        DeliveryKeeps(st, s, k, r);
      }
    case WorldChanges(cachedSecrets, secrets, services) =>
      forall r, cluster | Watched(st, cluster)
        ensures Waits(st, NewWorld(s.world, cachedSecrets, secrets, services), r, cluster) == Waits(st, s.world, r, cluster)
      {
        WorldChangeKeeps(st, s.world, cachedSecrets, secrets, services, r, cluster);
      }
    case _ =>
  }

  lemma {:induction false} RunKeeps(st: Settings, s: State, es: seq<Event>)
    requires Inv(st, s)
    ensures Inv(st, Run(st, s, es))
    decreases |es|
  {
    if es != [] {
      StepKeeps(st, s, es[0]);
      RunKeeps(st, Step(st, s, es[0]), es[1..]);
    }
  }

  predicate Start(s: State) {
    s.pending == s.resources.Keys && s.running == map[] && s.paused == {} && s.done == {}
  }

  /** The resource's last reconcile ended with nil and no connection, and nothing is to retry it. */
  predicate Asleep(s: State, r: Key) {
    r in s.paused && r in s.resources && r !in s.pending && r !in s.running
  }

  /** No lost wake-up: in every run, a resource of a topology kind with a reference by name that is
      asleep has a cluster that the cache still shows at zero or not allowing it; and once the
      cache has caught up with that cluster, so does the API server. */
  lemma NoLostWakeUp(st: Settings, s: State, es: seq<Event>, r: Key)
    requires Start(s) && Asleep(Run(st, s, es), r) && Watched(st, Run(st, s, es).resources[r])
    ensures var t := Run(st, s, es);
            var ref := t.resources[r];
            var k := ClusterKey(r, ref);
            && k in t.world.clusters
            && (t.world.clusters[k].replicas == Some(0) || !Allowed(ref, r.namespace, t.world.clusters[k].allowed))
            && (CachedCluster(t.stored, k) == CachedCluster(t.world.clusters, k) ==>
                  k in t.stored && (t.stored[k].replicas == Some(0) || !Allowed(ref, r.namespace, t.stored[k].allowed)))
  {
    RunKeeps(st, s, es);
    var t := Run(st, s, es);
    ReportedErrors(t.world, t.resources[r], r.namespace, st.domain, st.plainHttp);
  }

  /** Every listed resource is queued, being reconciled, waiting, or done. */
  ghost predicate Covered(s: State) {
    forall r :: r in s.resources ==> r in s.pending || r in s.running || r in s.paused || r in s.done
  }

  lemma CoveredStep(st: Settings, s: State, e: Event)
    requires Covered(s)
    ensures Covered(Step(st, s, e))
  {
  }

  /** No resource is forgotten: in every run each listed one is queued, being reconciled, waiting, or its
      last reconcile ended well; a failed one is queued again. */
  lemma {:induction false} NothingForgotten(st: Settings, s: State, es: seq<Event>)
    requires Covered(s)
    ensures Covered(Run(st, s, es))
    decreases |es|
  {
    if es != [] {
      CoveredStep(st, s, es[0]);
      NothingForgotten(st, Step(st, s, es[0]), es[1..]);
    }
  }

  // ---------------------------------------------------------------- where wake-ups are lost

  /** The event concerns the resource itself, or something else its controller watches for it. */
  predicate Touches(e: Event, r: Key) {
    e.Restarts? || ((e.ResourceChanges? || e.ResourceGoes? || e.Nudged?) && e.r == r)
  }

  /** A reference outside the cluster watch: once such a resource is asleep it stays so, whatever
      becomes of its cluster or connection secret, until it is touched. */
  lemma {:induction false} StaysAsleep(st: Settings, s: State, es: seq<Event>, r: Key)
    requires Asleep(s, r) && !Watched(st, s.resources[r]) && forall e :: e in es ==> !Touches(e, r)
    ensures Asleep(Run(st, s, es), r) && Run(st, s, es).resources[r] == s.resources[r]
    decreases |es|
  {
    if es != [] {
      assert es[0] in es;
      StaysAsleep(st, Step(st, s, es[0]), es[1..], r);
    }
  }

  /** The reference names something in another namespace, which may refuse it: a connection secret or
      cluster for the topology kinds, a cluster for a SuperStream. */
  predicate Refusable(st: Settings, r: Key, cluster: ClusterRef) {
    && cluster.namespace != "" && cluster.namespace != r.namespace
    && (st.controller.SuperStreams? ==> cluster.name != "")
  }

  /** The wake-up of a reference is lost: a run leaves the resource asleep with nothing to wait for. */
  ghost predicate Loses(st: Settings, s: State, es: seq<Event>, r: Key, cluster: ClusterRef) {
    && Start(s) && var t := Run(st, s, es);
    && Asleep(t, r) && t.resources[r] == cluster && !Waits(st, t.world, r, cluster)
  }

  lemma {:induction false} RunThenStep(st: Settings, s: State, es: seq<Event>, e: Event)
    ensures Run(st, s, es + [e]) == Step(st, Run(st, s, es), e)
    decreases |es|
  {
    if es == [] {
      assert [e][1..] == [];
    } else {
      assert (es + [e])[1..] == es[1..] + [e];
      RunThenStep(st, Step(st, s, es[0]), es[1..], e);
    }
  }

  /** A first reconcile that finds nothing but a refusal. */
  lemma FallsAsleep(st: Settings, s: State, r: Key, cluster: ClusterRef) returns (es: seq<Event>)
    requires Start(s) && s.resources == map[r := cluster] && Waits(st, s.world, r, cluster)
    ensures Run(st, s, es) == s.(pending := {}, paused := {r})
  {
    RunThenStep(st, s, [], Begins(r));
    es := [] + [Begins(r)];
    assert s.pending == {r} && s.pending - {r} == {};
    RunThenStep(st, s, es, Resolves(r));
    es := es + [Resolves(r)];
    RunThenStep(st, s, es, Ends(r, false));
    es := es + [Ends(r, false)];
    assert map[r := Running.Resolved(cluster, true)] - {r} == map[];
  }

  /** A connection secret that refuses the resource at first and allows it later: the resource could
      connect, and sleeps. */
  lemma SecretLosesWakeUp(st: Settings, r: Key, cluster: ClusterRef, uri: string) returns (s: State, es: seq<Event>)
    requires st.controller.Topology? && cluster.connectionSecret.Some? && Refusable(st, r, cluster)
    ensures Loses(st, s, es, r, cluster)
    ensures ParseReference(Run(st, s, es).world, cluster, r.namespace, st.domain, st.plainHttp).Connected?
  {
    var k := Key(cluster.namespace, cluster.connectionSecret.value);
    var closed, open := Secret(None, map["uri" := uri]), Secret(Some("*"), map["uri" := uri]);
    s := State(map[], World(map[], map[k := Found(closed)], map[], map[], {}), map[r := cluster], {r}, map[], {}, {});
    es := FallsAsleep(st, s, r, cluster);
    var change := WorldChanges(map[k := Found(open)], map[], map[]);
    RunThenStep(st, s, es, change);
    es := es + [change];
    assert "*" in Split("*") by { SplitPlain("*"); }
    assert Allowed(cluster, r.namespace, open.allowed);
  }

  /** A cluster that refuses a SuperStream at first and allows it later. */
  lemma SuperStreamLosesWakeUp(st: Settings, r: Key, cluster: ClusterRef) returns (s: State, es: seq<Event>)
    requires st.controller.SuperStreams? && Refusable(st, r, cluster)
    ensures Loses(st, s, es, r, cluster)
  {
    var k := ClusterKey(r, cluster);
    var closed := Cluster(None, None, None, None, None, None, false, false, None);
    var open := closed.(allowed := Some("*"));
    s := State(map[k := closed], World(map[k := closed], map[], map[], map[], {}), map[r := cluster], {r}, map[], {}, {});
    es := FallsAsleep(st, s, r, cluster);
    RunThenStep(st, s, es, ClusterChanges(k, Some(open)));
    es := es + [ClusterChanges(k, Some(open))];
    RunThenStep(st, s, es, Delivers(k));
    es := es + [Delivers(k)];
    assert "*" in Split("*") by { SplitPlain("*"); }
    assert Allowed(cluster, r.namespace, open.allowed);
  }

  /** What falls asleep waits on something refusable, or is watched. */
  ghost predicate Explained(st: Settings, s: State) {
    && (forall r :: r in s.paused && r in s.resources && r !in s.pending && r !in s.running ==>
          Watched(st, s.resources[r]) || Refusable(st, r, s.resources[r]))
    && (forall r :: r in s.running && r in s.resources && r !in s.pending ==> s.resources[r] == s.running[r].cluster)
    && (forall r :: r in s.running && s.running[r].Resolved? && s.running[r].waits ==>
          Watched(st, s.running[r].cluster) || Refusable(st, r, s.running[r].cluster))
  }

  lemma WaitingIsExplained(st: Settings, w: World, r: Key, cluster: ClusterRef)
    requires Waits(st, w, r, cluster)
    ensures Watched(st, cluster) || Refusable(st, r, cluster)
  {
    ReportedErrors(w, cluster, r.namespace, st.domain, st.plainHttp);
  }

  lemma ExplainedStep(st: Settings, s: State, e: Event)
    requires Explained(st, s)
    ensures Explained(st, Step(st, s, e))
  {
    if e.Resolves? && e.r in s.running && Waits(st, s.world, e.r, s.running[e.r].cluster) {
      WaitingIsExplained(st, s.world, e.r, s.running[e.r].cluster);
    }
  }

  lemma {:induction false} ExplainedRun(st: Settings, s: State, es: seq<Event>)
    requires Explained(st, s)
    ensures Explained(st, Run(st, s, es))
    decreases |es|
  {
    if es != [] {
      ExplainedStep(st, s, es[0]);
      ExplainedRun(st, Step(st, s, es[0]), es[1..]);
    }
  }

  /** Exactly when no run loses the wake-up of a reference: when the cluster watch covers it, or nothing
      can refuse it. */
  lemma WakeUpsKeptExactly(st: Settings, r: Key, cluster: ClusterRef)
    ensures (forall s, es :: !Loses(st, s, es, r, cluster)) <==> Watched(st, cluster) || !Refusable(st, r, cluster)
  {
    if Watched(st, cluster) || !Refusable(st, r, cluster) {
      forall s, es ensures !Loses(st, s, es, r, cluster) {
        if Start(s) {
          RunKeeps(st, s, es);
          ExplainedRun(st, s, es);
        }
      }
    } else if st.controller.Topology? {
      var s, es := SecretLosesWakeUp(st, r, cluster, "");
    } else {
      var s, es := SuperStreamLosesWakeUp(st, r, cluster);
    }
  }
}
