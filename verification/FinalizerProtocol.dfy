/** The reconcile protocol of one resource as a state machine over three stores: the API server
    (a log of every version it stored, a version's index being its resource version), the informer
    cache (an index into that log that never moves back) and the broker.

    Every call the operator makes is one event carrying its outcome; crashes, users, the cache and
    the broker move in between. A disabled event changes nothing, so a run is any list of events. */
module FinalizerProtocol {
  import opened Types
  import opened Admission

  // ---------------------------------------------------------------- the API server

  /** Status as the topology reconciler writes it; `observed` is observedGeneration. */
  datatype Status = Status(observed: nat, ready: Option<bool>)

  /** `uid` numbers the successive resources that had this name; `marked` is the deletion
      timestamp, `finalizer` the operator's own finalizer, `foreign` those of others. */
  datatype Object = Object(uid: nat, generation: nat, marked: bool, finalizer: bool,
                           foreign: set<string>, spec: Resource, status: Status)

  datatype Snapshot = Absent(last: nat) | Present(obj: Object)

  function Uid(s: Snapshot): nat {
    if s.Absent? then s.last else s.obj.uid
  }

  /** A marked object without finalizers is removed by the server. */
  function Settle(o: Object): Snapshot {
    if o.marked && !o.finalizer && o.foreign == {} then Absent(o.uid) else Present(o)
  }

  // ---------------------------------------------------------------- the operator

  /** Why `removeFinalizer` is called: after DeleteFunc deleted, or without touching the broker. */
  datatype Why = Deleted | Retained | ClusterMissing | ScaledToZero

  datatype Release = Release(why: Why, at: nat)

  /** Where a reconcile stands; `at` is the version of the object it works on. */
  datatype Phase =
    | Idle
    | Resolving(at: nat)
    | Probing(at: nat)
    | Deleting(at: nat)
    | Releasing(at: nat, why: Why)
    | Registering(at: nat)
    | Declaring(at: nat)
    | Reporting(at: nat, ready: bool)

  datatype State = State(
    hist: seq<Snapshot>,
    cacheAt: nat,
    broker: map<Coordinates, nat>,   // what the operator declared, with the uid it was declared for
    released: map<nat, Release>,     // finalizers removed without a broker deletion, by uid
    declared: set<nat>,              // versions on which DeclareFunc returned nil
    phase: Phase)

  datatype Resolution = Resolved | NoSuchCluster | AtZero | NotAllowed | OtherError

  /** A broker call: done, not done and reported so, or done but reported as failed. */
  datatype Call = Done | Refused | DoneUnseen

  /** An API write that is not stale: stored, rejected, or stored but reported as failed. */
  datatype Write = Stored | Rejected | StoredUnseen

  /** What DeleteFunc reads before deleting (GetQueue, or a listing of bindings). */
  datatype Probe = Unreadable | Guarded | Found | FoundNothing

  datatype Event =
    | CacheAdvances(to: nat)
    | Crash
    | UserCreates(spec: Resource)
    | UserUpdates(spec: Resource)
    | UserTouches(foreign: set<string>)
    | UserDeletes
    | BrokerForgets(c: Coordinates)
    | Reads
    | Resolves(r: Resolution)
    | Probes(p: Probe)
    | Deletes(call: Call)
    | Releases(write: Write)
    | Registers(write: Write)
    | Declares(call: Call)
    | Reports(write: Write)

  const INIT := State([Absent(0)], 0, map[], map[], {}, Idle)

  function Last(hist: seq<Snapshot>): Snapshot
    requires |hist| > 0
  {
    hist[|hist| - 1]
  }

  function Append(s: State, snap: Snapshot): State {
    s.(hist := s.hist + [snap])
  }

  /** DeleteFunc of a queue whose deletion policy is "retain" leaves the broker alone. */
  predicate Retains(r: Resource) {
    r.QueueResource? && r.queue.deletionPolicy == "retain"
  }

  /** DeleteFunc inspects a quorum queue with a deletion guard first. */
  predicate Inspected(r: Resource) {
    r.QueueResource? && r.queue.kind == "quorum" && (r.queue.deleteIfEmpty || r.queue.deleteIfUnused)
  }

  /** Inspected queues are read first, bindings with arguments are listed. */
  predicate NeedsProbe(r: Resource) {
    Inspected(r) || (r.BindingResource? && r.binding.arguments.Some?)
  }

  predicate Copy(hist: seq<Snapshot>, at: nat) {
    at < |hist| && hist[at].Present?
  }

  predicate Current(hist: seq<Snapshot>, at: nat) {
    at + 1 == |hist|
  }

  // ---------------------------------------------------------------- what users do

  function UserStep(s: State, e: Event): State
    requires |s.hist| > 0
    requires e.UserCreates? || e.UserUpdates? || e.UserTouches? || e.UserDeletes?
  {
    match Last(s.hist)
    case Absent(u) =>
      if e.UserCreates? then Append(s, Present(Object(u + 1, 1, false, false, {}, e.spec, Status(0, None))))
      else s
    case Present(o) =>
      match e
      case UserUpdates(spec) =>
        if UpdateAllowed(o.spec, spec) && spec != o.spec
        then Append(s, Present(o.(spec := spec, generation := o.generation + 1))) else s
      case UserTouches(foreign) =>
        if o.marked && !(foreign <= o.foreign) then s
        else Append(s, Settle(o.(foreign := foreign)))
      case UserDeletes =>
        if o.marked then s else Append(s, Settle(o.(marked := true, generation := o.generation + 1)))
      case _ => s
  }

  // ---------------------------------------------------------------- what the operator does

  function AfterResolution(o: Object, at: nat, r: Resolution): Phase {
    match r
    case NoSuchCluster => if o.marked then Releasing(at, ClusterMissing) else Idle
    case AtZero => if o.marked then Releasing(at, ScaledToZero) else Reporting(at, false)
    case NotAllowed => Reporting(at, false)
    case OtherError => Reporting(at, false)
    case Resolved =>
      if o.marked then
        if Retains(o.spec) then Releasing(at, Retained)
        else if NeedsProbe(o.spec) then Probing(at)
        else Deleting(at)
      else if !o.finalizer then Registering(at)
      else Declaring(at)
  }

  function ProbeStep(s: State, at: nat, p: Probe): State
    requires Copy(s.hist, at)
  {
    match p
    case Unreadable => s.(phase := Idle)
    case Guarded => s.(phase := Idle)
    // what is found is there; a listing shows that a binding is not, but GetQueue of a missing
    // queue is an error, so such a queue is unreadable
    case Found => if CoordinatesOf(s.hist[at].obj.spec) in s.broker then s.(phase := Deleting(at)) else s
    case FoundNothing =>
      if s.hist[at].obj.spec.BindingResource? && CoordinatesOf(s.hist[at].obj.spec) !in s.broker
      then s.(phase := Releasing(at, Deleted)) else s
  }

  function DeleteStep(s: State, at: nat, call: Call): State
    requires Copy(s.hist, at)
  {
    var c := CoordinatesOf(s.hist[at].obj.spec);
    match call
    case Done => s.(broker := s.broker - {c}, phase := Releasing(at, Deleted))
    case DoneUnseen => s.(broker := s.broker - {c}, phase := Idle)
    case Refused => s.(phase := Idle)
  }

  function ReleaseStep(s: State, at: nat, why: Why, write: Write): State
    requires Copy(s.hist, at)
  {
    var o := s.hist[at].obj;
    if write.Rejected? || !Current(s.hist, at) || !o.finalizer then s.(phase := Idle)
    else Append(s, Settle(o.(finalizer := false)))
         .(phase := Idle,
           released := if why.Deleted? then s.released else s.released[o.uid := Release(why, at)])
  }

  function RegisterStep(s: State, at: nat, write: Write): State
    requires Copy(s.hist, at)
  {
    if write.Rejected? || !Current(s.hist, at) then s.(phase := Idle)
    else Append(s, Present(s.hist[at].obj.(finalizer := true)))
         .(phase := if write.Stored? then Declaring(|s.hist|) else Idle)
  }

  function DeclareStep(s: State, at: nat, call: Call): State
    requires Copy(s.hist, at)
  {
    var o := s.hist[at].obj;
    var broker := s.broker[CoordinatesOf(o.spec) := o.uid];
    match call
    case Done => s.(broker := broker, declared := s.declared + {at}, phase := Reporting(at, true))
    case DoneUnseen => s.(broker := broker, phase := Reporting(at, false))
    case Refused => s.(phase := Reporting(at, false))
  }

  function ReportedStatus(o: Object, ready: bool): Status {
    if ready then Status(o.generation, Some(true)) else o.status.(ready := Some(false))
  }

  function ReportStep(s: State, at: nat, ready: bool, write: Write): State
    requires Copy(s.hist, at)
  {
    var o := s.hist[at].obj;
    var o' := o.(status := ReportedStatus(o, ready));
    if write.Rejected? || !Current(s.hist, at) || o' == o then s.(phase := Idle)
    else Append(s, Present(o')).(phase := Idle)
  }

  function OperatorStep(s: State, e: Event): State
    requires |s.hist| > 0 && s.cacheAt < |s.hist|
  {
    match s.phase
    case Idle =>
      if e.Reads? && s.hist[s.cacheAt].Present? then s.(phase := Resolving(s.cacheAt)) else s
    case Resolving(at) =>
      if e.Resolves? && Copy(s.hist, at) then s.(phase := AfterResolution(s.hist[at].obj, at, e.r)) else s
    case Probing(at) => if e.Probes? && Copy(s.hist, at) then ProbeStep(s, at, e.p) else s
    case Deleting(at) => if e.Deletes? && Copy(s.hist, at) then DeleteStep(s, at, e.call) else s
    case Releasing(at, why) => if e.Releases? && Copy(s.hist, at) then ReleaseStep(s, at, why, e.write) else s
    case Registering(at) => if e.Registers? && Copy(s.hist, at) then RegisterStep(s, at, e.write) else s
    case Declaring(at) => if e.Declares? && Copy(s.hist, at) then DeclareStep(s, at, e.call) else s
    case Reporting(at, ready) => if e.Reports? && Copy(s.hist, at) then ReportStep(s, at, ready, e.write) else s
  }

  predicate Well(s: State) {
    |s.hist| > 0 && s.cacheAt < |s.hist|
  }

  /** One event. Nothing stored is ever forgotten and the cache never moves back. */
  function Step(s: State, e: Event): (t: State)
    requires Well(s)
    ensures Well(t) && s.hist <= t.hist && s.cacheAt <= t.cacheAt
  {
    match e
    case CacheAdvances(to) => if s.cacheAt <= to < |s.hist| then s.(cacheAt := to) else s
    case Crash => s.(phase := Idle)
    case BrokerForgets(c) => s.(broker := s.broker - {c})
    case UserCreates(_) => UserStep(s, e)
    case UserUpdates(_) => UserStep(s, e)
    case UserTouches(_) => UserStep(s, e)
    case UserDeletes => UserStep(s, e)
    case _ => OperatorStep(s, e)
  }

  function Run(s: State, es: seq<Event>): (t: State)
    requires Well(s)
    ensures Well(t) && s.hist <= t.hist && s.cacheAt <= t.cacheAt
    decreases |es|
  {
    if es == [] then s else Run(Step(s, es[0]), es[1..])
  }

  // ---------------------------------------------------------------- how an object evolves

  /** What time does to one object: its place never moves, a deletion mark stays, the generation
      and the observed generation never decrease, and a generation names one spec. */
  predicate Evolves(a: Object, b: Object) {
    && CoordinatesOf(a.spec) == CoordinatesOf(b.spec)
    && (a.marked ==> b.marked)
    && a.generation <= b.generation
    && (a.generation == b.generation ==> a.spec == b.spec && a.marked == b.marked)
    && a.status.observed <= b.status.observed
  }

  predicate Later(a: Snapshot, b: Snapshot) {
    && Uid(a) <= Uid(b)
    && (Uid(a) == Uid(b) && a.Absent? ==> b.Absent?)
    && (Uid(a) == Uid(b) && a.Present? && b.Present? ==> Evolves(a.obj, b.obj))
  }

  ghost predicate History(hist: seq<Snapshot>) {
    && |hist| > 0
    && (forall i, j :: 0 <= i <= j < |hist| ==> Later(hist[i], hist[j]))
    && (forall i :: 0 <= i < |hist| && hist[i].Present? ==>
          hist[i].obj.status.observed <= hist[i].obj.generation)
  }

  lemma LaterTransitive(a: Snapshot, b: Snapshot, c: Snapshot)
    requires Later(a, b) && Later(b, c)
    ensures Later(a, c)
  {
  }

  lemma HistoryGrows(hist: seq<Snapshot>, snap: Snapshot)
    requires History(hist) && Later(hist[|hist|-1], snap)
    requires snap.Present? ==> snap.obj.status.observed <= snap.obj.generation
    ensures History(hist + [snap])
  {
    var h := hist + [snap];
    forall i, j | 0 <= i <= j < |h| ensures Later(h[i], h[j]) {
      if j == |hist| && i < j {
        LaterTransitive(hist[i], hist[|hist|-1], snap);
      }
    }
  }

  // ---------------------------------------------------------------- the invariant

  /** The current object is resource `u` and carries the operator's finalizer. */
  predicate Held(hist: seq<Snapshot>, u: nat)
    requires |hist| > 0
  {
    Last(hist).Present? && Last(hist).obj.uid == u && Last(hist).obj.finalizer
  }

  /** Every broker entry is accounted for: its resource still holds the finalizer, or its
      finalizer was removed on purpose without deleting. */
  ghost predicate Accounted(hist: seq<Snapshot>, broker: map<Coordinates, nat>, released: map<nat, Release>)
    requires |hist| > 0
  {
    forall c :: c in broker ==> broker[c] in released || Held(hist, broker[c])
  }

  /** A broker entry sits at the place every version of its resource names. */
  ghost predicate Placed(hist: seq<Snapshot>, broker: map<Coordinates, nat>) {
    forall c, i :: c in broker && 0 <= i < |hist| && hist[i].Present? && hist[i].obj.uid == broker[c] ==>
      CoordinatesOf(hist[i].obj.spec) == c
  }

  /** Whatever live, registered version the cache may still show is a version of the current,
      registered object. This is where one-way caches matter. */
  ghost predicate Shown(hist: seq<Snapshot>, cacheAt: nat)
    requires |hist| > 0
  {
    forall i :: cacheAt <= i < |hist| && hist[i].Present? && hist[i].obj.finalizer && !hist[i].obj.marked ==>
      Held(hist, hist[i].obj.uid)
  }

  predicate Marked(s: State, at: nat)
    requires Copy(s.hist, at)
  {
    s.hist[at].obj.marked && at <= s.cacheAt
  }

  ghost predicate PhaseSound(s: State)
    requires |s.hist| > 0 && s.cacheAt < |s.hist|
  {
    s.phase.Idle? ||
    (&& Copy(s.hist, s.phase.at)
     && var o := s.hist[s.phase.at].obj;
     && o.uid <= Uid(s.hist[s.cacheAt])
     && match s.phase
        case Resolving(at) => at <= s.cacheAt && (o.finalizer && !o.marked ==> Held(s.hist, o.uid))
        case Probing(at) => Marked(s, at)
        case Deleting(at) => Marked(s, at)
        case Releasing(at, why) =>
          && Marked(s, at)
          && (why == Retained ==> Retains(o.spec))
          && (why == Deleted ==> forall c :: c in s.broker && s.broker[c] == o.uid ==> o.uid in s.released)
        case Registering(at) => !o.marked
        case Declaring(at) => Held(s.hist, o.uid)
        case Reporting(at, ready) => ready ==> at in s.declared)
  }

  /** Nothing in the broker is newer than the object a reconcile works on. */
  ghost predicate Bounded(s: State)
    requires |s.hist| > 0 && s.cacheAt < |s.hist|
    requires s.phase.Idle? || Copy(s.hist, s.phase.at)
  {
    var u := if s.phase.Idle? then Uid(s.hist[s.cacheAt]) else s.hist[s.phase.at].obj.uid;
    forall c :: c in s.broker ==> s.broker[c] <= u
  }

  /** Releases are recorded on the marked version whose finalizer they removed. */
  ghost predicate ReleasesSound(hist: seq<Snapshot>, released: map<nat, Release>) {
    forall u :: u in released ==>
      && Copy(hist, released[u].at)
      && var o := hist[released[u].at].obj;
      && o.uid == u && o.marked && o.finalizer && released[u].why != Deleted
      && (released[u].why == Retained ==> Retains(o.spec))
  }

  /** DeclareFunc returned nil on generation g of resource u. */
  ghost predicate DeclaredAt(hist: seq<Snapshot>, declared: set<nat>, u: nat, g: nat) {
    exists d :: d in declared && Copy(hist, d) && hist[d].obj.uid == u && hist[d].obj.generation == g
  }

  ghost predicate GenerationsSound(hist: seq<Snapshot>, declared: set<nat>) {
    && (forall d :: d in declared ==> Copy(hist, d))
    && (forall i :: 0 <= i < |hist| && hist[i].Present? && hist[i].obj.status.observed > 0 ==>
          DeclaredAt(hist, declared, hist[i].obj.uid, hist[i].obj.status.observed))
  }

  ghost predicate Inv(s: State) {
    && History(s.hist) && s.cacheAt < |s.hist|
    && Accounted(s.hist, s.broker, s.released) && Placed(s.hist, s.broker) && Shown(s.hist, s.cacheAt) && PhaseSound(s) && Bounded(s)
    && ReleasesSound(s.hist, s.released) && GenerationsSound(s.hist, s.declared)
  }

  // ---------------------------------------------------------------- every step keeps the invariant

  lemma DeclaredAtGrows(s: State, snap: Snapshot, u: nat, g: nat)
    requires DeclaredAt(s.hist, s.declared, u, g)
    ensures DeclaredAt(s.hist + [snap], s.declared, u, g)
  {
    var d :| d in s.declared && Copy(s.hist, d) && s.hist[d].obj.uid == u && s.hist[d].obj.generation == g;
    assert Copy(Append(s, snap).hist, d) && Append(s, snap).hist[d] == s.hist[d];
  }

  lemma GenerationsGrow(s: State, snap: Snapshot)
    requires GenerationsSound(s.hist, s.declared)
    requires snap.Present? && snap.obj.status.observed > 0 ==> DeclaredAt(s.hist, s.declared, snap.obj.uid, snap.obj.status.observed)
    ensures GenerationsSound(s.hist + [snap], s.declared)
  {
    var t := Append(s, snap);
    forall i | 0 <= i < |t.hist| && t.hist[i].Present? && t.hist[i].obj.status.observed > 0
      ensures DeclaredAt(t.hist, t.declared, t.hist[i].obj.uid, t.hist[i].obj.status.observed)
    {
      assert i < |s.hist| ==> t.hist[i] == s.hist[i];
      DeclaredAtGrows(s, snap, t.hist[i].obj.uid, t.hist[i].obj.status.observed);
    }
  }

  lemma PlacedGrows(s: State, snap: Snapshot)
    requires Inv(s) && Later(Last(s.hist), snap)
    ensures Placed(s.hist + [snap], s.broker)
  {
    var t := Append(s, snap);
    forall c, i | c in t.broker && 0 <= i < |t.hist| && t.hist[i].Present? && t.hist[i].obj.uid == t.broker[c]
      ensures CoordinatesOf(t.hist[i].obj.spec) == c
    {
      if i == |s.hist| {
        BrokerBehindLast(s, c);
        assert Last(s.hist).Present? && Last(s.hist).obj.uid == s.broker[c];
      } else {
        assert t.hist[i] == s.hist[i];
      }
    }
  }

  /** No broker entry is newer than the current snapshot. */
  lemma BrokerBehindLast(s: State, c: Coordinates)
    requires Inv(s) && c in s.broker
    ensures s.broker[c] <= Uid(Last(s.hist))
  {
    assert Later(s.hist[s.cacheAt], Last(s.hist));
  }

  /** An API write that keeps the operator's finalizer keeps the invariant. */
  lemma AppendKeeps(s: State, snap: Snapshot)
    requires Inv(s) && Later(Last(s.hist), snap)
    requires Last(s.hist).Present? && Last(s.hist).obj.finalizer ==> snap.Present? && snap.obj.uid == Last(s.hist).obj.uid && snap.obj.finalizer
    requires snap.Present? ==> snap.obj.status.observed <= snap.obj.generation
    requires snap.Present? && snap.obj.status.observed > 0 ==> DeclaredAt(s.hist, s.declared, snap.obj.uid, snap.obj.status.observed)
    ensures Inv(Append(s, snap))
  {
    var t := Append(s, snap);
    HistoryGrows(s.hist, snap);
    GenerationsGrow(s, snap);
    PlacedGrows(s, snap);
    assert forall u :: Held(s.hist, u) ==> Held(t.hist, u);
    assert forall i :: 0 <= i < |s.hist| ==> t.hist[i] == s.hist[i];
    assert Last(t.hist) == snap;
  }

  lemma UserKeeps(s: State, e: Event)
    requires Inv(s) && (e.UserCreates? || e.UserUpdates? || e.UserTouches? || e.UserDeletes?)
    ensures Inv(UserStep(s, e))
  {
    var t := UserStep(s, e);
    if t != s {
      var snap := t.hist[|s.hist|];
      assert t == Append(s, snap);
      assert s.hist[|s.hist|-1] == Last(s.hist);
      AppendKeeps(s, snap);
    }
  }

  lemma CacheKeeps(s: State, to: nat)
    requires Inv(s) && s.cacheAt <= to < |s.hist|
    ensures Inv(s.(cacheAt := to))
  {
    assert Later(s.hist[s.cacheAt], s.hist[to]);
  }

  lemma CrashKeeps(s: State)
    requires Inv(s)
    ensures Inv(s.(phase := Idle))
  {
  }

  lemma ForgetKeeps(s: State, c: Coordinates)
    requires Inv(s)
    ensures Inv(s.(broker := s.broker - {c}))
  {
  }

  lemma ResolveKeeps(s: State, r: Resolution)
    requires Inv(s) && s.phase.Resolving?
    ensures Inv(s.(phase := AfterResolution(s.hist[s.phase.at].obj, s.phase.at, r)))
  {
  }

  /** After the broker deleted (or never had) what a resource names, nothing in it is the resource's. */
  lemma GoneFromBroker(s: State, at: nat)
    requires Inv(s) && Copy(s.hist, at) && CoordinatesOf(s.hist[at].obj.spec) !in s.broker
    ensures forall c :: c in s.broker ==> s.broker[c] != s.hist[at].obj.uid
  {
  }

  lemma ProbeKeeps(s: State, p: Probe)
    requires Inv(s) && s.phase.Probing?
    ensures Inv(ProbeStep(s, s.phase.at, p))
  {
    if CoordinatesOf(s.hist[s.phase.at].obj.spec) !in s.broker {
      GoneFromBroker(s, s.phase.at);
    }
  }

  /** A reconcile may move to any phase whose own condition holds. */
  lemma PhaseKeeps(s: State, p: Phase)
    requires Inv(s)
    requires PhaseSound(s.(phase := p))
    requires p.Idle? || Bounded(s.(phase := p))
    ensures Inv(s.(phase := p))
  {
    if p.Idle? { CrashKeeps(s); }
  }

  lemma DeleteKeeps(s: State, call: Call)
    requires Inv(s) && s.phase.Deleting?
    ensures Inv(DeleteStep(s, s.phase.at, call))
  {
    var c := CoordinatesOf(s.hist[s.phase.at].obj.spec);
    var t := s.(broker := s.broker - {c});
    ForgetKeeps(s, c);
    GoneFromBroker(t, s.phase.at);
    match call
    case Done => PhaseKeeps(t, Releasing(s.phase.at, Deleted));
    case DoneUnseen => CrashKeeps(t);
    case Refused => CrashKeeps(s);
  }

  /** All versions of one resource name one place. */
  lemma OnePlace(s: State, i: nat, j: nat)
    requires Inv(s) && Copy(s.hist, i) && Copy(s.hist, j) && s.hist[i].obj.uid == s.hist[j].obj.uid
    ensures CoordinatesOf(s.hist[i].obj.spec) == CoordinatesOf(s.hist[j].obj.spec)
  {
    assert i <= j ==> Later(s.hist[i], s.hist[j]);
    assert j <= i ==> Later(s.hist[j], s.hist[i]);
  }

  /** A declaration, applied by the broker, of a resource that holds the finalizer. */
  lemma DeclaredKeeps(s: State)
    requires Inv(s) && s.phase.Declaring?
    ensures var o := s.hist[s.phase.at].obj;
            Inv(s.(broker := s.broker[CoordinatesOf(o.spec) := o.uid]))
  {
    var at := s.phase.at;
    var o := s.hist[at].obj;
    var t := s.(broker := s.broker[CoordinatesOf(o.spec) := o.uid]);
    forall i | 0 <= i < |s.hist| && s.hist[i].Present? && s.hist[i].obj.uid == o.uid
      ensures CoordinatesOf(s.hist[i].obj.spec) == CoordinatesOf(o.spec)
    {
      OnePlace(s, i, at);
    }
  }

  lemma LogKeeps(s: State, at: nat)
    requires Inv(s) && Copy(s.hist, at)
    ensures Inv(s.(declared := s.declared + {at}))
  {
    var t := s.(declared := s.declared + {at});
    forall i | 0 <= i < |t.hist| && t.hist[i].Present? && t.hist[i].obj.status.observed > 0
      ensures DeclaredAt(t.hist, t.declared, t.hist[i].obj.uid, t.hist[i].obj.status.observed)
    {
      var d :| d in s.declared && Copy(s.hist, d) && s.hist[d].obj.uid == t.hist[i].obj.uid
               && s.hist[d].obj.generation == t.hist[i].obj.status.observed;
      assert d in t.declared && Copy(t.hist, d);
    }
  }

  lemma DeclareKeeps(s: State, call: Call)
    requires Inv(s) && s.phase.Declaring?
    ensures Inv(DeclareStep(s, s.phase.at, call))
  {
    var at := s.phase.at;
    var o := s.hist[at].obj;
    var t := s.(broker := s.broker[CoordinatesOf(o.spec) := o.uid]);
    match call
    case Done =>
      DeclaredKeeps(s);
      LogKeeps(t, at);
      PhaseKeeps(t.(declared := t.declared + {at}), Reporting(at, true));
    case DoneUnseen =>
      DeclaredKeeps(s);
      PhaseKeeps(t, Reporting(at, false));
    case Refused =>
      PhaseKeeps(s, Reporting(at, false));
  }

  /** Adding the finalizer succeeds only on the current version, so from here on the object stays. */
  lemma RegisterKeeps(s: State, write: Write)
    requires Inv(s) && s.phase.Registering?
    ensures Inv(RegisterStep(s, s.phase.at, write))
  {
    var at := s.phase.at;
    if write.Rejected? || !Current(s.hist, at) {
      CrashKeeps(s);
    } else {
      var snap := Present(s.hist[at].obj.(finalizer := true));
      var t := Append(s, snap);
      AppendKeeps(s, snap);
      assert t.hist[|s.hist|] == snap == Last(t.hist);
      assert t.hist[s.cacheAt] == s.hist[s.cacheAt];
      PhaseKeeps(t, if write.Stored? then Declaring(|s.hist|) else Idle);
    }
  }

  lemma ReportKeeps(s: State, write: Write)
    requires Inv(s) && s.phase.Reporting?
    ensures Inv(ReportStep(s, s.phase.at, s.phase.ready, write))
  {
    var at := s.phase.at;
    var o := s.hist[at].obj;
    var o' := o.(status := ReportedStatus(o, s.phase.ready));
    if write.Rejected? || !Current(s.hist, at) || o' == o {
      CrashKeeps(s);
    } else {
      assert s.phase.ready ==> at in s.declared && Copy(s.hist, at) && DeclaredAt(s.hist, s.declared, o.uid, o.generation);
      AppendKeeps(s, Present(o'));
      CrashKeeps(Append(s, Present(o')));
    }
  }

  /** Once the finalizer goes, the cache has already seen the mark: no later read can lead to a
      new declaration of this resource. */
  lemma ShownAfterRelease(s: State, snap: Snapshot)
    requires Inv(s) && s.phase.Releasing? && Current(s.hist, s.phase.at)
    requires snap.Present? ==> !snap.obj.finalizer
    ensures Shown(s.hist + [snap], s.cacheAt)
  {
    var h := s.hist + [snap];
    forall i | s.cacheAt <= i < |s.hist| && s.hist[i].Present?
      ensures s.hist[i].obj.marked
    {
      assert Later(s.hist[s.phase.at], s.hist[i]) && Later(s.hist[i], s.hist[|s.hist|-1]);
    }
    assert forall i :: 0 <= i < |s.hist| ==> h[i] == s.hist[i];
  }

  /** After the finalizer goes, nothing unreleased is left in the broker at all. */
  lemma AccountedAfterRelease(s: State, snap: Snapshot, released: map<nat, Release>)
    requires Inv(s) && s.phase.Releasing? && Current(s.hist, s.phase.at)
    requires forall u :: u in s.released ==> u in released
    requires s.phase.why.Deleted? || s.hist[s.phase.at].obj.uid in released
    ensures Accounted(s.hist + [snap], s.broker, released)
  {
    forall c | c in s.broker ensures s.broker[c] in released {
      if s.broker[c] !in s.released {
        assert Held(s.hist, s.broker[c]);
      }
    }
  }

  lemma ReleasesAfterRelease(s: State, snap: Snapshot, released: map<nat, Release>)
    requires Inv(s) && s.phase.Releasing? && s.hist[s.phase.at].obj.finalizer
    requires released == if s.phase.why.Deleted? then s.released
                         else s.released[s.hist[s.phase.at].obj.uid := Release(s.phase.why, s.phase.at)]
    ensures ReleasesSound(s.hist + [snap], released)
  {
    assert forall i :: 0 <= i < |s.hist| ==> (s.hist + [snap])[i] == s.hist[i];
  }

  lemma BoundedAfterRelease(s: State, snap: Snapshot)
    requires Inv(s) && s.phase.Releasing?
    ensures forall c :: c in s.broker ==> s.broker[c] <= Uid((s.hist + [snap])[s.cacheAt])
  {
    assert (s.hist + [snap])[s.cacheAt] == s.hist[s.cacheAt];
  }

  /** Removing the finalizer; what it leaves in the broker is recorded as released. */
  lemma ReleasedKeeps(s: State, snap: Snapshot, released: map<nat, Release>)
    requires Inv(s) && s.phase.Releasing? && Current(s.hist, s.phase.at)
    requires var o := s.hist[s.phase.at].obj;
             && o.finalizer && snap == Settle(o.(finalizer := false))
             && released == if s.phase.why.Deleted? then s.released
                            else s.released[o.uid := Release(s.phase.why, s.phase.at)]
    ensures Inv(Append(s, snap).(phase := Idle, released := released))
  {
    HistoryGrows(s.hist, snap);
    GenerationsGrow(s, snap);
    PlacedGrows(s, snap);
    ShownAfterRelease(s, snap);
    AccountedAfterRelease(s, snap, released);
    ReleasesAfterRelease(s, snap, released);
    BoundedAfterRelease(s, snap);
  }

  lemma ReleaseKeeps(s: State, write: Write)
    requires Inv(s) && s.phase.Releasing?
    ensures Inv(ReleaseStep(s, s.phase.at, s.phase.why, write))
  {
    var at := s.phase.at;
    var o := s.hist[at].obj;
    if write.Rejected? || !Current(s.hist, at) || !o.finalizer {
      CrashKeeps(s);
    } else {
      ReleasedKeeps(s, Settle(o.(finalizer := false)),
                    if s.phase.why.Deleted? then s.released else s.released[o.uid := Release(s.phase.why, at)]);
    }
  }

  lemma OperatorKeeps(s: State, e: Event)
    requires Inv(s)
    ensures Inv(OperatorStep(s, e))
  {
    if OperatorStep(s, e) != s {
      match s.phase
      case Idle => PhaseKeeps(s, Resolving(s.cacheAt));
      case Resolving(at) => ResolveKeeps(s, e.r);
      case Probing(at) => ProbeKeeps(s, e.p);
      case Deleting(at) => DeleteKeeps(s, e.call);
      case Releasing(at, why) => ReleaseKeeps(s, e.write);
      case Registering(at) => RegisterKeeps(s, e.write);
      case Declaring(at) => DeclareKeeps(s, e.call);
      case Reporting(at, ready) => ReportKeeps(s, e.write);
    }
  }

  lemma StepKeeps(s: State, e: Event)
    requires Inv(s)
    ensures Inv(Step(s, e))
  {
    match e
    case CacheAdvances(to) => if s.cacheAt <= to < |s.hist| { CacheKeeps(s, to); }
    case Crash => CrashKeeps(s);
    case BrokerForgets(c) => ForgetKeeps(s, c);
    case UserCreates(_) => UserKeeps(s, e);
    case UserUpdates(_) => UserKeeps(s, e);
    case UserTouches(_) => UserKeeps(s, e);
    case UserDeletes => UserKeeps(s, e);
    case _ => OperatorKeeps(s, e);
  }

  lemma {:induction false} RunKeeps(s: State, es: seq<Event>)
    requires Inv(s)
    ensures Inv(Run(s, es))
    decreases |es|
  {
    if es != [] {
      StepKeeps(s, es[0]);
      RunKeeps(Step(s, es[0]), es[1..]);
    }
  }

  lemma Reachable(es: seq<Event>)
    ensures Inv(Run(INIT, es))
  {
    RunKeeps(INIT, es);
  }

  // ---------------------------------------------------------------- whole runs

  /** No leak: in every run, whatever the operator put in the broker either belongs to the
      resource now stored, which still carries the finalizer and names that very place, or was
      declared for a resource whose finalizer was removed because its deletion policy is retain,
      its cluster was reported missing, or its cluster was reported scaled to zero. */
  lemma NoLeak(es: seq<Event>, c: Coordinates)
    requires c in Run(INIT, es).broker
    ensures var s := Run(INIT, es);
            var u := s.broker[c];
            || (Held(s.hist, u) && CoordinatesOf(Last(s.hist).obj.spec) == c)
            || (&& u in s.released
                && Copy(s.hist, s.released[u].at)
                && var o := s.hist[s.released[u].at].obj;
                && o.uid == u && o.marked && CoordinatesOf(o.spec) == c
                && (|| (s.released[u].why == Retained && o.spec.QueueResource? && o.spec.queue.deletionPolicy == "retain")
                    || s.released[u].why == ClusterMissing
                    || s.released[u].why == ScaledToZero))
  {
    Reachable(es);
  }

  /** So once a resource is gone and nothing was released, the broker is empty. */
  lemma GoneMeansGone(es: seq<Event>)
    requires Last(Run(INIT, es).hist).Absent? && Run(INIT, es).released == map[]
    ensures Run(INIT, es).broker == map[]
  {
    var s := Run(INIT, es);
    if s.broker != map[] {
      var c :| c in s.broker;
      NoLeak(es, c);
    }
  }

  /** A broker deletion never hits what was declared for a live resource, even when the cache still
      shows an earlier, deleted resource of the same name and the same place in the broker. */
  lemma NeverDeletesLive(es: seq<Event>)
    requires Run(INIT, es).phase.Deleting? && Copy(Run(INIT, es).hist, Run(INIT, es).phase.at)
    ensures var s := Run(INIT, es);
            var c := CoordinatesOf(s.hist[s.phase.at].obj.spec);
            c in s.broker && Last(s.hist).Present? && !Last(s.hist).obj.marked ==> s.broker[c] != Last(s.hist).obj.uid
  {
    Reachable(es);
    var s := Run(INIT, es);
    assert Later(s.hist[s.phase.at], s.hist[|s.hist|-1]);
  }

  /** A generation names one spec: two versions of a resource with one generation agree on it. */
  lemma GenerationNamesSpec(s: State, i: nat, j: nat)
    requires Inv(s) && Copy(s.hist, i) && Copy(s.hist, j)
    requires s.hist[i].obj.uid == s.hist[j].obj.uid && s.hist[i].obj.generation == s.hist[j].obj.generation
    ensures s.hist[i].obj.spec == s.hist[j].obj.spec
  {
    assert i <= j ==> Later(s.hist[i], s.hist[j]);
    assert j <= i ==> Later(s.hist[j], s.hist[i]);
  }

  /** Truthful generation: an observed generation g > 0 stored in version i means DeclareFunc had
      succeeded on a version d of the same resource, and every version j of generation g has
      the spec that was declared. */
  lemma TruthfulGeneration(es: seq<Event>, i: nat, j: nat) returns (d: nat)
    requires var h := Run(INIT, es).hist;
             && Copy(h, i) && h[i].obj.status.observed > 0
             && Copy(h, j) && h[j].obj.uid == h[i].obj.uid && h[j].obj.generation == h[i].obj.status.observed
    ensures var s := Run(INIT, es);
            && d in s.declared && Copy(s.hist, d)
            && s.hist[d].obj.uid == s.hist[i].obj.uid
            && s.hist[d].obj.generation == s.hist[i].obj.status.observed
            && s.hist[j].obj.spec == s.hist[d].obj.spec
  {
    Reachable(es);
    var s := Run(INIT, es);
    assert DeclaredAt(s.hist, s.declared, s.hist[i].obj.uid, s.hist[i].obj.status.observed);
    d :| d in s.declared && Copy(s.hist, d) && s.hist[d].obj.uid == s.hist[i].obj.uid
         && s.hist[d].obj.generation == s.hist[i].obj.status.observed;
    GenerationNamesSpec(s, d, j);
  }

  /** The observed generation never exceeds the generation and never decreases, over any run and
      its continuation, conflicting and failed status writes included. */
  lemma GenerationMonotone(es: seq<Event>, i: nat, j: nat)
    requires var h := Run(INIT, es).hist;
             Copy(h, i) && Copy(h, j) && i <= j && h[i].obj.uid == h[j].obj.uid
    ensures var h := Run(INIT, es).hist;
            h[i].obj.status.observed <= h[j].obj.status.observed <= h[j].obj.generation
  {
    Reachable(es);
    var h := Run(INIT, es).hist;
    assert Later(h[i], h[j]);
  }

  // ---------------------------------------------------------------- recovery

  /** An event of a reconcile in which nothing fails, or the cache catching up. */
  predicate Undisturbed(e: Event) {
    || e.Crash? || e.CacheAdvances? || e.Reads? || e == Resolves(Resolved) || e == Probes(Found)
    || e == Probes(FoundNothing) || e == Deletes(Done) || e == Releases(Stored) || e == Registers(Stored) || e == Declares(Done)
    || e == Reports(Stored)
  }

  lemma {:induction false} RunThenStep(s: State, es: seq<Event>, e: Event)
    requires Well(s)
    ensures Run(s, es + [e]) == Step(Run(s, es), e)
    decreases |es|
  {
    if es == [] {
      assert ([e])[1..] == [];
    } else {
      assert (es + [e])[1..] == es[1..] + [e];
      RunThenStep(Step(s, es[0]), es[1..], e);
    }
  }

  lemma {:induction false} RunThenRun(s: State, es: seq<Event>, fs: seq<Event>)
    requires Well(s)
    ensures Run(s, es + fs) == Run(Run(s, es), fs)
    decreases |es|
  {
    if es == [] {
      assert es + fs == fs;
    } else {
      assert (es + fs)[1..] == es[1..] + fs;
      RunThenRun(Step(s, es[0]), es[1..], fs);
    }
  }

  /** A fresh read of the current object, up to the resolution of its cluster. */
  lemma ReadsCurrent(s: State) returns (es: seq<Event>)
    requires Well(s) && Last(s.hist).Present?
    ensures forall e :: e in es ==> Undisturbed(e)
    ensures var at := |s.hist| - 1;
            Run(s, es) == s.(cacheAt := at, phase := AfterResolution(s.hist[at].obj, at, Resolved))
  {
    es := [];
    RunThenStep(s, es, Crash);
    es := es + [Crash];
    RunThenStep(s, es, CacheAdvances(|s.hist| - 1));
    es := es + [CacheAdvances(|s.hist| - 1)];
    RunThenStep(s, es, Reads);
    es := es + [Reads];
    RunThenStep(s, es, Resolves(Resolved));
    es := es + [Resolves(Resolved)];
  }

  lemma DeclaresAndReports(s: State)
    requires Well(s) && s.phase == Declaring(|s.hist| - 1) && Last(s.hist).Present?
    ensures var t := Step(Step(s, Declares(Done)), Reports(Stored));
            var o := Last(s.hist).obj;
            && Last(t.hist) == Present(o.(status := Status(o.generation, Some(true))))
            && CoordinatesOf(o.spec) in t.broker && t.broker[CoordinatesOf(o.spec)] == o.uid
  {
    var o := Last(s.hist).obj;
    var t := Step(s, Declares(Done));
    assert t == s.(broker := s.broker[CoordinatesOf(o.spec) := o.uid], declared := s.declared + {|s.hist| - 1},
                   phase := Reporting(|s.hist| - 1, true));
    assert Step(t, Reports(Stored)) == ReportStep(t, |s.hist| - 1, true, Stored);
  }

  lemma RunThenTwo(s: State, es: seq<Event>, e: Event, e': Event)
    requires Well(s)
    ensures Run(s, es + [e, e']) == Step(Step(Run(s, es), e), e')
  {
    RunThenStep(s, es, e);
    RunThenStep(s, es + [e], e');
    assert es + [e] + [e'] == es + [e, e'];
  }

  /** A quorum queue with a guard that the broker does not have: GetQueue fails every time. */
  predicate InspectedAndGone(spec: Resource, broker: map<Coordinates, nat>) {
    Inspected(spec) && CoordinatesOf(spec) !in broker
  }

  lemma ReachesDeletion(s: State) returns (es: seq<Event>)
    requires Well(s) && Last(s.hist).Present?
    requires var o := Last(s.hist).obj; o.marked && !Retains(o.spec) && (NeedsProbe(o.spec) ==> CoordinatesOf(o.spec) in s.broker)
    ensures forall e :: e in es ==> Undisturbed(e)
    ensures Run(s, es) == s.(cacheAt := |s.hist| - 1, phase := Deleting(|s.hist| - 1))
  {
    es := ReadsCurrent(s);
    if NeedsProbe(Last(s.hist).obj.spec) {
      RunThenStep(s, es, Probes(Found));
      es := es + [Probes(Found)];
    }
  }

  /** A binding with arguments that is not listed needs no deletion. */
  lemma FindsNothing(s: State) returns (es: seq<Event>)
    requires Well(s) && Last(s.hist).Present?
    requires var o := Last(s.hist).obj;
             o.marked && o.spec.BindingResource? && NeedsProbe(o.spec) && CoordinatesOf(o.spec) !in s.broker
    ensures forall e :: e in es ==> Undisturbed(e)
    ensures Run(s, es) == s.(cacheAt := |s.hist| - 1, phase := Releasing(|s.hist| - 1, Deleted))
  {
    es := ReadsCurrent(s);
    RunThenStep(s, es, Probes(FoundNothing));
    es := es + [Probes(FoundNothing)];
  }

  lemma ReachesRelease(s: State) returns (es: seq<Event>)
    requires Well(s) && Last(s.hist).Present?
    requires var o := Last(s.hist).obj; o.marked && !Retains(o.spec) && !InspectedAndGone(o.spec, s.broker)
    ensures forall e :: e in es ==> Undisturbed(e)
    ensures Run(s, es) == s.(cacheAt := |s.hist| - 1, phase := Releasing(|s.hist| - 1, Deleted),
                             broker := s.broker - {CoordinatesOf(Last(s.hist).obj.spec)})
  {
    var o := Last(s.hist).obj;
    if NeedsProbe(o.spec) && CoordinatesOf(o.spec) !in s.broker {
      es := FindsNothing(s);
      assert s.broker - {CoordinatesOf(o.spec)} == s.broker;
    } else {
      es := ReachesDeletion(s);
      RunThenStep(s, es, Deletes(Done));
      es := es + [Deletes(Done)];
    }
  }

  /** Whatever happened before, one undisturbed reconcile of a marked object removes it from the
      API server and its declaration from the broker, unless it is a guarded quorum queue that
      the broker does not have. */
  lemma DeletionCompletes(s: State) returns (es: seq<Event>)
    requires Well(s) && Last(s.hist).Present?
    requires var o := Last(s.hist).obj;
             o.marked && o.finalizer && o.foreign == {} && !Retains(o.spec) && !InspectedAndGone(o.spec, s.broker)
    ensures forall e :: e in es ==> Undisturbed(e)
    ensures Last(Run(s, es).hist) == Absent(Last(s.hist).obj.uid)
    ensures CoordinatesOf(Last(s.hist).obj.spec) !in Run(s, es).broker
  {
    es := ReachesRelease(s);
    RunThenStep(s, es, Releases(Stored));
    es := es + [Releases(Stored)];
  }

  /** The same is not true of a guarded quorum queue that is gone from the broker. Events that
      could help: the cluster is reported missing or at zero, or someone edits the spec. (Someone
      could also recreate the queue in the broker, which is no event of this machine.) */
  predicate Unhelpful(e: Event) {
    !e.UserUpdates? && e != Resolves(NoSuchCluster) && e != Resolves(AtZero)
  }

  /** Such a queue, marked, in a cache that shows the mark; no reconcile of its current version has
      got past the inspection. */
  ghost predicate Stuck(s: State, uid: nat) {
    && Well(s) && Last(s.hist).Present?
    && var o := Last(s.hist).obj;
    && o.uid == uid && o.marked && o.finalizer && !Retains(o.spec) && InspectedAndGone(o.spec, s.broker)
    && (forall i :: s.cacheAt <= i < |s.hist| ==> s.hist[i].Present? && s.hist[i].obj.marked)
    && !s.phase.Registering? && !s.phase.Declaring?
    && (!s.phase.Idle? ==> Copy(s.hist, s.phase.at) && s.hist[s.phase.at].obj.marked)
    && (!s.phase.Idle? && Current(s.hist, s.phase.at) ==> s.phase.Resolving? || s.phase.Probing? || s.phase.Reporting?)
  }

  lemma StuckOperator(s: State, uid: nat, e: Event)
    requires Stuck(s, uid) && Unhelpful(e)
    ensures Stuck(OperatorStep(s, e), uid)
  {
  }

  lemma StuckStep(s: State, uid: nat, e: Event)
    requires Stuck(s, uid) && Unhelpful(e)
    ensures Stuck(Step(s, e), uid)
  {
    match e
    case CacheAdvances(_) =>
    case Crash =>
    case BrokerForgets(_) =>
    case UserCreates(_) =>
    case UserUpdates(_) =>
    case UserTouches(_) =>
    case UserDeletes =>
    case _ => StuckOperator(s, uid, e);
  }

  /** It stays, whatever else happens: reconciles, retries, crashes, answers of any kind. */
  lemma {:induction false} StuckForever(s: State, uid: nat, es: seq<Event>)
    requires Stuck(s, uid) && forall e :: e in es ==> Unhelpful(e)
    ensures Stuck(Run(s, es), uid)
    decreases |es|
  {
    if es != [] {
      StuckStep(s, uid, es[0]);
      StuckForever(Step(s, es[0]), uid, es[1..]);
    }
  }

  lemma ReachesDeclaration(s: State) returns (es: seq<Event>)
    requires Well(s) && Last(s.hist).Present? && !Last(s.hist).obj.marked
    ensures forall e :: e in es ==> Undisturbed(e)
    ensures var t := Run(s, es);
            && t.phase == Declaring(|t.hist| - 1)
            && Last(t.hist) == Present(Last(s.hist).obj.(finalizer := true))
  {
    es := ReadsCurrent(s);
    if !Last(s.hist).obj.finalizer {
      assert Step(Run(s, es), Registers(Stored)) == RegisterStep(Run(s, es), |s.hist| - 1, Stored);
      RunThenStep(s, es, Registers(Stored));
      es := es + [Registers(Stored)];
    }
  }

  /** Whatever happened before, one undisturbed reconcile of an unmarked object leaves it
      registered, declared and observed. */
  lemma DeclarationCompletes(s: State) returns (es: seq<Event>)
    requires Well(s) && Last(s.hist).Present? && !Last(s.hist).obj.marked
    ensures forall e :: e in es ==> Undisturbed(e)
    ensures var o := Last(s.hist).obj;
            && Last(Run(s, es).hist) == Present(o.(finalizer := true, status := Status(o.generation, Some(true))))
            && CoordinatesOf(o.spec) in Run(s, es).broker && Run(s, es).broker[CoordinatesOf(o.spec)] == o.uid
  {
    es := ReachesDeclaration(s);
    DeclaresAndReports(Run(s, es));
    RunThenTwo(s, es, Declares(Done), Reports(Stored));
    es := es + [Declares(Done), Reports(Stored)];
  }

  /** When a marked object can be removed at all, without help: exactly when it is not such a queue. */
  lemma DeletableExactly(s: State)
    requires Well(s) && s.phase.Idle? && Last(s.hist).Present?
    requires var o := Last(s.hist).obj; o.marked && o.finalizer && o.foreign == {} && !Retains(o.spec)
    requires forall i :: s.cacheAt <= i < |s.hist| ==> s.hist[i].Present? && s.hist[i].obj.marked
    ensures (exists es :: (forall e :: e in es ==> Unhelpful(e)) && Last(Run(s, es).hist) == Absent(Last(s.hist).obj.uid))
            <==> var spec := Last(s.hist).obj.spec;
                 !(&& spec.QueueResource? && spec.queue.kind == "quorum"
                   && (spec.queue.deleteIfEmpty || spec.queue.deleteIfUnused) && CoordinatesOf(spec) !in s.broker)
  {
    var o := Last(s.hist).obj;
    if InspectedAndGone(o.spec, s.broker) {
      forall es | (forall e :: e in es ==> Unhelpful(e)) ensures Last(Run(s, es).hist) != Absent(o.uid) {
        StuckForever(s, o.uid, es);
      }
    } else {
      var es := DeletionCompletes(s);
      assert forall e :: e in es ==> Unhelpful(e);
    }
  }

  /** The operator gets there by itself: for every guarded quorum queue there is a run in which the
      answer to the one deletion is lost, and from then on the resource cannot be removed. */
  lemma LostAnswerSticks(spec: Resource) returns (es: seq<Event>)
    requires Inspected(spec) && !Retains(spec)
    ensures Stuck(Run(INIT, es), 1)
  {
    RunThenStep(INIT, [], UserCreates(spec));
    es := [] + [UserCreates(spec)];
    var declared := DeclarationCompletes(Run(INIT, es));
    RunThenRun(INIT, es, declared);
    es := es + declared;
    RunThenStep(INIT, es, UserDeletes);
    es := es + [UserDeletes];
    var lost := LosesAnswer(Run(INIT, es));
    RunThenRun(INIT, es, lost);
    es := es + lost;
  }

  lemma LosesAnswer(s: State) returns (es: seq<Event>)
    requires Well(s) && Last(s.hist).Present?
    requires var o := Last(s.hist).obj;
             o.marked && o.finalizer && !Retains(o.spec) && Inspected(o.spec) && CoordinatesOf(o.spec) in s.broker
    ensures Stuck(Run(s, es), Last(s.hist).obj.uid)
  {
    es := ReadsCurrent(s);
    RunThenStep(s, es, Probes(Found));
    es := es + [Probes(Found)];
    RunThenStep(s, es, Deletes(DoneUnseen));
    es := es + [Deletes(DoneUnseen)];
  }

  // ---------------------------------------------------------------- what is reported, and when

  /** Ready comes with an observed generation. */
  ghost predicate ReadySound(hist: seq<Snapshot>) {
    forall i :: 0 <= i < |hist| && hist[i].Present? ==>
      hist[i].obj.generation > 0 && (hist[i].obj.status.ready == Some(true) ==> hist[i].obj.status.observed > 0)
  }

  lemma ReadyStep(s: State, e: Event)
    requires Well(s) && ReadySound(s.hist)
    ensures ReadySound(Step(s, e).hist)
  {
    var t := Step(s, e);
    assert Last(s.hist) == s.hist[|s.hist|-1];
    forall i | 0 <= i < |t.hist| && t.hist[i].Present?
      ensures t.hist[i].obj.generation > 0 && (t.hist[i].obj.status.ready == Some(true) ==> t.hist[i].obj.status.observed > 0)
    {
      if i < |s.hist| { assert t.hist[i] == s.hist[i]; }
    }
  }

  lemma {:induction false} ReadyRun(s: State, es: seq<Event>)
    requires Well(s) && ReadySound(s.hist)
    ensures ReadySound(Run(s, es).hist)
    decreases |es|
  {
    if es != [] {
      ReadyStep(s, es[0]);
      ReadyRun(Step(s, es[0]), es[1..]);
    }
  }

  /** Ready is truthful: in every run a version stored as Ready has an observed generation on which
      DeclareFunc had succeeded. */
  lemma ReadyMeansDeclared(es: seq<Event>, i: nat) returns (d: nat)
    requires Copy(Run(INIT, es).hist, i) && Run(INIT, es).hist[i].obj.status.ready == Some(true)
    ensures var s := Run(INIT, es);
            && s.hist[i].obj.status.observed > 0 && d in s.declared && Copy(s.hist, d)
            && s.hist[d].obj.uid == s.hist[i].obj.uid && s.hist[d].obj.generation == s.hist[i].obj.status.observed
  {
    ReadyRun(INIT, es);
    Reachable(es);
    var s := Run(INIT, es);
    assert DeclaredAt(s.hist, s.declared, s.hist[i].obj.uid, s.hist[i].obj.status.observed);
    d :| d in s.declared && Copy(s.hist, d) && s.hist[d].obj.uid == s.hist[i].obj.uid
         && s.hist[d].obj.generation == s.hist[i].obj.status.observed;
  }

  /** The object is as before, but for NotReady and perhaps the finalizer. */
  predicate NotReadyNow(snap: Snapshot, o: Object, finalizer: bool) {
    snap == Present(o.(finalizer := finalizer, status := Status(o.status.observed, Some(false))))
  }

  lemma RefusalReported(s: State, call: Call)
    requires Well(s) && s.phase == Declaring(|s.hist| - 1) && Last(s.hist).Present? && !call.Done?
    ensures var t := Step(Step(s, Declares(call)), Reports(Stored));
            NotReadyNow(Last(t.hist), Last(s.hist).obj, Last(s.hist).obj.finalizer) && t.phase.Idle?
  {
    var o := Last(s.hist).obj;
    var t := Step(s, Declares(call));
    assert t.hist == s.hist && t.phase == Reporting(|s.hist| - 1, false);
    assert Step(t, Reports(Stored)) == ReportStep(t, |s.hist| - 1, false, Stored);
  }

  /** From any state: a reconcile of the current version whose declaration fails, or looks failed, leaves
      the object registered and NotReady, with the generation observed before. */
  lemma FailureIsReported(s: State, call: Call) returns (es: seq<Event>)
    requires Well(s) && Last(s.hist).Present? && !Last(s.hist).obj.marked && !call.Done?
    ensures |es| >= 2 && es[|es|-2..] == [Declares(call), Reports(Stored)] && Run(s, es[..|es|-2]).phase.Declaring?
    ensures NotReadyNow(Last(Run(s, es).hist), Last(s.hist).obj, true)
  {
    var first := ReachesDeclaration(s);
    RefusalReported(Run(s, first), call);
    RunThenTwo(s, first, Declares(call), Reports(Stored));
    es := first + [Declares(call), Reports(Stored)];
    assert es[..|es|-2] == first;
  }

  /** A reconcile of the current version, up to this answer about its cluster. */
  lemma ReachesAnswer(s: State, r: Resolution) returns (es: seq<Event>)
    requires Well(s) && Last(s.hist).Present?
    ensures es == [Crash, CacheAdvances(|s.hist| - 1), Reads, Resolves(r)]
    ensures var at := |s.hist| - 1;
            Run(s, es) == s.(cacheAt := at, phase := AfterResolution(s.hist[at].obj, at, r))
  {
    var at := |s.hist| - 1;
    RunThenStep(s, [], Crash);
    es := [] + [Crash];
    RunThenStep(s, es, CacheAdvances(at));
    es := es + [CacheAdvances(at)];
    var m := s.(cacheAt := at, phase := Idle);
    assert Run(s, es) == m;
    RunThenStep(s, es, Reads);
    es := es + [Reads];
    assert Run(s, es) == m.(phase := Resolving(at));
    RunThenStep(s, es, Resolves(r));
    es := es + [Resolves(r)];
  }

  /** From any state: a reference that is not allowed or cannot be used, and for an unmarked object a
      cluster at zero, is reported as NotReady and changes nothing else. */
  lemma UnusableIsReported(s: State, r: Resolution)
    requires Well(s) && Last(s.hist).Present?
    requires r.NotAllowed? || r.OtherError? || (r.AtZero? && !Last(s.hist).obj.marked)
    ensures var t := Run(s, [Crash, CacheAdvances(|s.hist| - 1), Reads, Resolves(r)] + [Reports(Stored)]);
            && NotReadyNow(Last(t.hist), Last(s.hist).obj, Last(s.hist).obj.finalizer)
            && t.broker == s.broker && t.released == s.released && t.declared == s.declared && t.phase.Idle?
  {
    var es := ReachesAnswer(s, r);
    RunThenStep(s, es, Reports(Stored));
    StoresNotReady(s.(cacheAt := |s.hist| - 1, phase := Reporting(|s.hist| - 1, false)));
  }

  lemma StoresNotReady(s: State)
    requires Well(s) && Last(s.hist).Present? && s.phase == Reporting(|s.hist| - 1, false)
    ensures var t := Step(s, Reports(Stored));
            && NotReadyNow(Last(t.hist), Last(s.hist).obj, Last(s.hist).obj.finalizer)
            && t.broker == s.broker && t.released == s.released && t.declared == s.declared && t.phase.Idle?
  {
    assert Step(s, Reports(Stored)) == ReportStep(s, |s.hist| - 1, false, Stored);
  }

  /** From any state: a marked object is released, and the broker left alone, when its cluster is reported
      missing or at zero, or when it is a queue whose policy is retain. */
  lemma ReleasedWithoutDeletion(s: State, r: Resolution)
    requires Well(s) && Last(s.hist).Present?
    requires var o := Last(s.hist).obj;
             && o.marked && o.finalizer && o.foreign == {}
             && (r.NoSuchCluster? || r.AtZero? || (r.Resolved? && o.spec.QueueResource? && o.spec.queue.deletionPolicy == "retain"))
    ensures var t, o := Run(s, [Crash, CacheAdvances(|s.hist| - 1), Reads, Resolves(r)] + [Releases(Stored)]), Last(s.hist).obj;
            && Last(t.hist) == Absent(o.uid) && t.broker == s.broker && o.uid in t.released
            && t.released[o.uid].why == (if r.NoSuchCluster? then ClusterMissing else if r.AtZero? then ScaledToZero else Retained)
  {
    var why := if r.NoSuchCluster? then ClusterMissing else if r.AtZero? then ScaledToZero else Retained;
    var es := ReachesAnswer(s, r);
    RunThenStep(s, es, Releases(Stored));
    ReleasesAs(s.(cacheAt := |s.hist| - 1, phase := Releasing(|s.hist| - 1, why)));
  }

  lemma ReleasesAs(s: State)
    requires Well(s) && Last(s.hist).Present? && s.phase.Releasing? && s.phase.at == |s.hist| - 1 && !s.phase.why.Deleted?
    requires var o := Last(s.hist).obj; o.marked && o.finalizer && o.foreign == {}
    ensures var t, o := Step(s, Releases(Stored)), Last(s.hist).obj;
            Last(t.hist) == Absent(o.uid) && t.broker == s.broker && o.uid in t.released && t.released[o.uid].why == s.phase.why
  {
  }

  /** An unmarked object whose cluster is reported missing is left as it is, to be retried. */
  lemma MissingClusterWaits(s: State)
    requires Well(s) && Last(s.hist).Present? && !Last(s.hist).obj.marked
    ensures Run(s, [Crash, CacheAdvances(|s.hist| - 1), Reads, Resolves(NoSuchCluster)]) == s.(cacheAt := |s.hist| - 1, phase := Idle)
  {
    var es := ReachesAnswer(s, NoSuchCluster);
  }

  /** A marked quorum queue with a guard that holds, or that cannot be read, stays as it is. */
  lemma GuardedQueueWaits(s: State, p: Probe)
    requires Well(s) && Last(s.hist).Present? && (p.Guarded? || p.Unreadable?)
    requires var o := Last(s.hist).obj;
             && o.marked && o.spec.QueueResource? && o.spec.queue.kind == "quorum" && o.spec.queue.deletionPolicy != "retain"
             && (o.spec.queue.deleteIfEmpty || o.spec.queue.deleteIfUnused)
    ensures Run(s, [Crash, CacheAdvances(|s.hist| - 1), Reads, Resolves(Resolved)] + [Probes(p)]) == s.(cacheAt := |s.hist| - 1, phase := Idle)
  {
    var es := ReachesAnswer(s, Resolved);
    RunThenStep(s, es, Probes(p));
    ProbeEnds(s.(cacheAt := |s.hist| - 1, phase := Probing(|s.hist| - 1)), p);
  }

  lemma ProbeEnds(s: State, p: Probe)
    requires Well(s) && Last(s.hist).Present? && s.phase == Probing(|s.hist| - 1) && (p.Guarded? || p.Unreadable?)
    ensures Step(s, Probes(p)) == s.(phase := Idle)
  {
  }

  /** A release for a missing cluster, or one at zero, was preceded by that very report. */
  ghost predicate ReportsSound(s: State, es: seq<Event>) {
    && (forall u :: u in s.released ==>
          && (s.released[u].why == ClusterMissing ==> Resolves(NoSuchCluster) in es)
          && (s.released[u].why == ScaledToZero ==> Resolves(AtZero) in es))
    && (s.phase.Releasing? ==>
          && (s.phase.why == ClusterMissing ==> Resolves(NoSuchCluster) in es)
          && (s.phase.why == ScaledToZero ==> Resolves(AtZero) in es))
  }

  lemma ReportsStep(s: State, es: seq<Event>, e: Event)
    requires Well(s) && ReportsSound(s, es)
    ensures ReportsSound(Step(s, e), es + [e])
  {
    assert forall x :: x in es ==> x in es + [e];
    assert e in es + [e];
  }

  /** So nothing is released for a reason that was not reported in the run. */
  lemma {:induction false} ReleasesWereReported(es: seq<Event>)
    ensures ReportsSound(Run(INIT, es), es)
    decreases |es|
  {
    if es != [] {
      var before, e := es[..|es|-1], es[|es|-1];
      ReleasesWereReported(before);
      RunThenStep(INIT, before, e);
      ReportsStep(Run(INIT, before), before, e);
      assert before + [e] == es;
    }
  }
}
