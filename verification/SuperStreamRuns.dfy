/** Every run of the SuperStream controller: a log of stored versions with a lagging cache, one API
    call per event, crashes in between, users who edit the SuperStream (under its webhook when
    admission is on) and its children (under theirs). */
module SuperStreamRuns {
  import opened Types
  import opened Admission
  import opened SuperStreams

  datatype Status = Status(partitions: seq<string>, ready: Option<bool>, observed: nat)

  datatype SuperStream = SuperStream(spec: SuperStreamSpec, generation: nat, status: Status)

  /** Applying(at, k): the first k children of version `at` are written. Saving: writing the
      partition list, then (last) the Ready condition with it. Failing and Noting: writing
      NotReady, with and without observedGeneration. */
  datatype Phase =
    | Idle
    | Applying(at: nat, k: nat)
    | Saving(at: nat, last: bool)
    | Failing(at: nat)
    | Noting(at: nat)

  datatype State = State(
    owner: Owner,
    admission: bool,
    hist: seq<SuperStream>,
    cacheAt: nat,
    children: map<Slot, seq<Option<Child>>>,   // every stored version; None where it was deleted
    refused: bool,                             // a webhook refused a child write of the controller
    completed: set<nat>,                       // versions all of whose children were written
    phase: Phase)

  datatype Lookup = ClusterFound | ClusterMissing | ClusterForbidden

  datatype Write = Accepted | Rejected | AcceptedUnseen

  datatype Event =
    | UserUpdates(spec: SuperStreamSpec)
    | UserTouches
    | ChildEdited(slot: Slot, child: Child)
    | ChildDeleted(slot: Slot)
    | CacheAdvances(to: nat)
    | Crash
    | Begins(lookup: Lookup)
    | Applies(seen: nat, write: Write)
    | Saves(write: Write)
    | Fails(write: Write)

  predicate Start(s: State) {
    && |s.hist| == 1 && s.cacheAt == 0 && s.children == map[] && !s.refused && s.completed == {} && s.phase.Idle?
    && s.hist[0].status == Status([], None, 0)
  }

  predicate Well(s: State) {
    s.cacheAt < |s.hist| && (s.phase.Idle? || s.phase.at < |s.hist|)
  }

  /** Nothing stored is forgotten; the owner and the deployment stay. */
  predicate Moves(s: State, t: State) {
    Well(t) && s.hist <= t.hist && t.owner == s.owner && t.admission == s.admission
  }

  predicate Current(s: State, at: nat) {
    at + 1 == |s.hist|
  }

  function Append(s: State, o: SuperStream): State {
    s.(hist := s.hist + [o])
  }

  function Versions(s: State, slot: Slot): seq<Option<Child>> {
    if slot in s.children then s.children[slot] else []
  }

  function CurrentChild(s: State, slot: Slot): Option<Child> {
    var v := Versions(s, slot);
    if v == [] then None else v[|v|-1]
  }

  function StoreChild(s: State, slot: Slot, c: Option<Child>): State {
    s.(children := s.children[slot := Versions(s, slot) + [c]])
  }

  function Size(spec: SuperStreamSpec): nat {
    if EffectiveKeys(spec).Some? then |EffectiveKeys(spec).value| else 0
  }

  predicate Expands(o: SuperStream) {
    EffectiveKeys(o.spec).Some? && |o.status.partitions| <= o.spec.partitions && o.spec.cluster.name != ""
  }

  function QueueNames(owner: Owner, spec: SuperStreamSpec): seq<string>
    requires EffectiveKeys(spec).Some?
  {
    var keys := EffectiveKeys(spec).value;
    seq(|keys|, i requires 0 <= i < |keys| => PartitionQueue(owner.name, keys[i]))
  }

  // ---------------------------------------------------------------- the controller

  function BeginStep(s: State, lookup: Lookup): State
    requires Well(s)
  {
    var at := s.cacheAt;
    var o := s.hist[at];
    if lookup.ClusterMissing? || o.spec.cluster.name == "" then s
    else if lookup.ClusterForbidden? then s.(phase := Noting(at))
    else if o.spec.partitions < |o.status.partitions| then s.(phase := Failing(at))
    else if EffectiveKeys(o.spec).None? then s.(phase := Failing(at))
    else s.(phase := Applying(at, 0))
  }

  /** The phase after the k-th child of version `at` was written. */
  function Advance(s: State, at: nat, k: nat): State
    requires at < |s.hist|
  {
    if k >= 2 * Size(s.hist[at].spec) then s.(completed := s.completed + {at}, phase := Saving(at, false))
    else s.(phase := Applying(at, k + 1))
  }

  /** A child write that reached the API server with a current version. */
  function WriteChild(s: State, at: nat, k: nat, next: Child, allowed: bool, write: Write): (t: State)
    requires at < |s.hist|
    ensures Well(s) ==> Moves(s, t)
  {
    if !allowed then s.(refused := true, phase := Failing(at))
    else if write.AcceptedUnseen? then StoreChild(s, SlotAt(k), Some(next)).(phase := Failing(at))
    else Advance(StoreChild(s, SlotAt(k), Some(next)), at, k)
  }

  /** CreateOrUpdate of one child, of which the cache shows version `seen` or nothing. */
  function ApplyStep(s: State, at: nat, k: nat, seen: nat, write: Write): (t: State)
    requires at < |s.hist| && Keyed(s.hist[at].spec, SlotAt(k))
    ensures Well(s) ==> Moves(s, t)
  {
    var slot := SlotAt(k);
    var spec := s.hist[at].spec;
    var v := Versions(s, slot);
    if seen < |v| && v[seen].Some? && Fits(slot, v[seen].value) then
      var c := v[seen].value;
      var next := SuperStreams.Stored(Updated(s.owner, spec, slot, c));
      if next == c then Advance(s, at, k)
      else if write.Rejected? then s.(phase := Failing(at))
      else if seen + 1 != |v| then s       // a conflict is retried on a fresh read
      else WriteChild(s, at, k, next, s.admission ==> ChildUpdateAllowed(c, next), write)
    else
      var next := SuperStreams.Stored(Updated(s.owner, spec, slot, Blank(slot)));
      if write.Rejected? || CurrentChild(s, slot).Some? then s.(phase := Failing(at))
      else WriteChild(s, at, k, next, s.admission ==> ChildCreateAllowed(next), write)
  }

  /** What the successful end of a reconcile stores: the names first, then Ready as well. */
  function Saved(owner: Owner, o: SuperStream, last: bool): SuperStream
    requires EffectiveKeys(o.spec).Some?
  {
    var names := QueueNames(owner, o.spec);
    if last then o.(status := Status(names, Some(true), o.generation))
    else o.(status := o.status.(partitions := names))
  }

  function SaveStep(s: State, at: nat, last: bool, write: Write): State
    requires at < |s.hist| && EffectiveKeys(s.hist[at].spec).Some?
  {
    var o := s.hist[at];
    var stored := !write.Rejected? && Current(s, at);
    var t := if stored then Append(s, Saved(s.owner, o, last)) else s;
    t.(phase := if last then Idle else if stored && write.Accepted? then Saving(|s.hist|, true) else Saving(at, true))
  }

  function FailStep(s: State, at: nat, observe: bool, write: Write): State
    requires at < |s.hist|
  {
    var o := s.hist[at];
    var status := o.status.(ready := Some(false), observed := if observe then o.generation else o.status.observed);
    (if !write.Rejected? && Current(s, at) then Append(s, o.(status := status)) else s).(phase := Idle)
  }

  function ControllerStep(s: State, e: Event): (t: State)
    requires Well(s)
    ensures Moves(s, t)
  {
    match s.phase
    case Idle => if e.Begins? then BeginStep(s, e.lookup) else s
    case Applying(at, k) =>
      if e.Applies? && Keyed(s.hist[at].spec, SlotAt(k))
      then ApplyStep(s, at, k, e.seen, e.write) else s
    case Saving(at, last) =>
      if e.Saves? && EffectiveKeys(s.hist[at].spec).Some? then SaveStep(s, at, last, e.write) else s
    case Failing(at) => if e.Fails? then FailStep(s, at, true, e.write) else s
    case Noting(at) => if e.Fails? then FailStep(s, at, false, e.write) else s
  }

  // ---------------------------------------------------------------- everybody else

  function OthersStep(s: State, e: Event): (t: State)
    requires Well(s)
    ensures Moves(s, t)
  {
    var o := s.hist[|s.hist|-1];
    match e
    case UserUpdates(spec) =>
      if spec != o.spec && (s.admission ==> SuperStreamUpdateAllowed(o.spec, spec))
      then Append(s, o.(spec := spec, generation := o.generation + 1)) else s
    case UserTouches => Append(s, o)
    case ChildEdited(slot, c) =>
      var prev := CurrentChild(s, slot);
      if prev.Some? && Fits(slot, c) && SuperStreams.Stored(c) == c && (s.admission ==> ChildUpdateAllowed(prev.value, c))
      then StoreChild(s, slot, Some(c)) else s
    case ChildDeleted(slot) => if CurrentChild(s, slot).Some? then StoreChild(s, slot, None) else s
    case CacheAdvances(to) => if s.cacheAt <= to < |s.hist| then s.(cacheAt := to) else s
    case Crash => s.(phase := Idle)
    case _ => s
  }

  function Step(s: State, e: Event): (t: State)
    requires Well(s)
    ensures Moves(s, t)
  {
    if e.Begins? || e.Applies? || e.Saves? || e.Fails? then ControllerStep(s, e) else OthersStep(s, e)
  }

  function Run(s: State, es: seq<Event>): (t: State)
    requires Well(s)
    ensures Moves(s, t)
    decreases |es|
  {
    if es == [] then s else Run(Step(s, es[0]), es[1..])
  }

  // ---------------------------------------------------------------- with or without webhooks

  predicate Grown(a: SuperStream, b: SuperStream) {
    && |a.status.partitions| <= |b.status.partitions|
    && a.generation <= b.generation
    && (a.generation == b.generation ==> a.spec == b.spec)
  }

  ghost predicate Growing(hist: seq<SuperStream>) {
    forall i, j :: 0 <= i <= j < |hist| ==> Grown(hist[i], hist[j])
  }

  /** All children of generation g were written. */
  ghost predicate CompletedAt(hist: seq<SuperStream>, completed: set<nat>, g: nat) {
    exists d :: d in completed && d < |hist| && hist[d].generation == g
  }

  /** Some stored version of the slot is what the controller makes of it for this spec. */
  ghost predicate Written(owner: Owner, spec: SuperStreamSpec, children: map<Slot, seq<Option<Child>>>, slot: Slot) {
    slot in children &&
    exists v :: 0 <= v < |children[slot]| && children[slot][v].Some? && Settled(owner, spec, slot, children[slot][v].value)
  }

  /** So it is for the first k children. */
  ghost predicate FirstWritten(owner: Owner, spec: SuperStreamSpec, children: map<Slot, seq<Option<Child>>>, k: nat) {
    forall j :: 0 <= j < k ==> Written(owner, spec, children, SlotAt(j))
  }

  /** Versions counted as completed have all their children. */
  ghost predicate CompletedSound(s: State) {
    forall d :: d in s.completed ==>
      d < |s.hist| && EffectiveKeys(s.hist[d].spec).Some?
      && FirstWritten(s.owner, s.hist[d].spec, s.children, 1 + 2 * Size(s.hist[d].spec))
  }

  ghost predicate ReadySound(hist: seq<SuperStream>, completed: set<nat>) {
    && (forall d :: d in completed ==> d < |hist|)
    && (forall i :: 0 <= i < |hist| && hist[i].status.ready == Some(true) ==>
          CompletedAt(hist, completed, hist[i].status.observed))
  }

  ghost predicate PhaseSound(s: State)
    requires Well(s)
  {
    match s.phase
    case Applying(at, k) =>
      && Expands(s.hist[at]) && k <= 2 * Size(s.hist[at].spec)
      && FirstWritten(s.owner, s.hist[at].spec, s.children, k)
    case Saving(at, last) => Expands(s.hist[at]) && CompletedAt(s.hist, s.completed, s.hist[at].generation)
    case _ => true
  }

  ghost predicate Inv(s: State) {
    Well(s) && Growing(s.hist) && ReadySound(s.hist, s.completed) && CompletedSound(s) && PhaseSound(s)
  }

  lemma AppendKeeps(s: State, o: SuperStream)
    requires Inv(s) && Grown(s.hist[|s.hist|-1], o)
    requires o.status.ready == Some(true) ==> CompletedAt(s.hist, s.completed, o.status.observed)
    ensures Inv(Append(s, o))
  {
    var h := s.hist + [o];
    forall i, j | 0 <= i <= j < |h| ensures Grown(h[i], h[j]) {
      if j == |s.hist| && i < j {
        assert Grown(s.hist[i], s.hist[|s.hist|-1]);
      }
    }
    forall i | 0 <= i < |h| && h[i].status.ready == Some(true)
      ensures CompletedAt(h, s.completed, h[i].status.observed)
    {
      var d :| d in s.completed && d < |s.hist| && s.hist[d].generation == h[i].status.observed;
      assert h[d] == s.hist[d];
    }
    if s.phase.Saving? {
      var d :| d in s.completed && d < |s.hist| && s.hist[d].generation == s.hist[s.phase.at].generation;
      assert h[d] == s.hist[d];
    }
  }

  lemma AdvanceKeeps(s: State, at: nat, k: nat)
    requires Inv(s) && at < |s.hist| && Expands(s.hist[at]) && k <= 2 * Size(s.hist[at].spec)
    requires FirstWritten(s.owner, s.hist[at].spec, s.children, k + 1)
    ensures Inv(Advance(s, at, k))
  {
    var t := Advance(s, at, k);
    forall i | 0 <= i < |t.hist| && t.hist[i].status.ready == Some(true)
      ensures CompletedAt(t.hist, t.completed, t.hist[i].status.observed)
    {
      var d :| d in s.completed && d < |s.hist| && s.hist[d].generation == s.hist[i].status.observed;
      assert d in t.completed;
    }
    if t.phase.Saving? {
      assert at in t.completed && t.hist[at].generation == t.hist[at].generation;
    }
  }

  lemma WrittenGrows(s: State, slot: Slot, c: Option<Child>, spec: SuperStreamSpec, k: nat)
    requires FirstWritten(s.owner, spec, s.children, k)
    ensures FirstWritten(s.owner, spec, StoreChild(s, slot, c).children, k)
  {
    var t := StoreChild(s, slot, c);
    forall j | 0 <= j < k ensures Written(s.owner, spec, t.children, SlotAt(j)) {
      assert Written(s.owner, spec, s.children, SlotAt(j));
      var v :| 0 <= v < |s.children[SlotAt(j)]| && s.children[SlotAt(j)][v].Some?
               && Settled(s.owner, spec, SlotAt(j), s.children[SlotAt(j)][v].value);
      assert t.children[SlotAt(j)][v] == s.children[SlotAt(j)][v];
    }
  }

  lemma StoreKeeps(s: State, slot: Slot, c: Option<Child>)
    requires Inv(s)
    ensures Inv(StoreChild(s, slot, c))
  {
    forall d | d in s.completed
      ensures FirstWritten(s.owner, s.hist[d].spec, StoreChild(s, slot, c).children, 1 + 2 * Size(s.hist[d].spec))
    {
      WrittenGrows(s, slot, c, s.hist[d].spec, 1 + 2 * Size(s.hist[d].spec));
    }
    if s.phase.Applying? {
      WrittenGrows(s, slot, c, s.hist[s.phase.at].spec, s.phase.k);
    }
  }

  lemma WriteChildKeeps(s: State, next: Child, allowed: bool, write: Write)
    requires Inv(s) && s.phase.Applying? && Settled(s.owner, s.hist[s.phase.at].spec, SlotAt(s.phase.k), next)
    ensures Inv(WriteChild(s, s.phase.at, s.phase.k, next, allowed, write))
  {
    var slot := SlotAt(s.phase.k);
    var t := StoreChild(s, slot, Some(next));
    StoreKeeps(s, slot, Some(next));
    assert t.children[slot][|t.children[slot]|-1] == Some(next);
    assert Written(s.owner, s.hist[s.phase.at].spec, t.children, slot);
    AdvanceKeeps(t, s.phase.at, s.phase.k);
  }

  lemma FailingKeeps(s: State, at: nat)
    requires Inv(s) && at < |s.hist|
    ensures Inv(s.(phase := Failing(at)))
  {
  }

  /** CreateOrUpdate of a child that the cache shows. */
  lemma UpdateKeeps(s: State, seen: nat, write: Write)
    requires Inv(s) && s.phase.Applying? && Keyed(s.hist[s.phase.at].spec, SlotAt(s.phase.k))
    requires var v := Versions(s, SlotAt(s.phase.k)); seen < |v| && v[seen].Some? && Fits(SlotAt(s.phase.k), v[seen].value)
    ensures Inv(ApplyStep(s, s.phase.at, s.phase.k, seen, write))
  {
    var at, slot := s.phase.at, SlotAt(s.phase.k);
    var spec, c := s.hist[at].spec, Versions(s, slot)[seen].value;
    var next := SuperStreams.Stored(Updated(s.owner, spec, slot, c));
    WriteSettles(s.owner, spec, slot, c);
    FailingKeeps(s, at);
    if next == c {
      assert s.children[slot][seen] == Some(c);
      assert Written(s.owner, spec, s.children, slot);
      AdvanceKeeps(s, at, s.phase.k);
    } else {
      WriteChildKeeps(s, next, s.admission ==> ChildUpdateAllowed(c, next), write);
    }
  }

  lemma ApplyKeeps(s: State, seen: nat, write: Write)
    requires Inv(s) && s.phase.Applying? && Keyed(s.hist[s.phase.at].spec, SlotAt(s.phase.k))
    ensures Inv(ApplyStep(s, s.phase.at, s.phase.k, seen, write))
  {
    var slot := SlotAt(s.phase.k);
    var v := Versions(s, slot);
    if seen < |v| && v[seen].Some? && Fits(slot, v[seen].value) {
      UpdateKeeps(s, seen, write);
    } else {
      var spec := s.hist[s.phase.at].spec;
      var next := SuperStreams.Stored(Updated(s.owner, spec, slot, Blank(slot)));
      WriteSettles(s.owner, spec, slot, Blank(slot));
      FailingKeeps(s, s.phase.at);
      WriteChildKeeps(s, next, s.admission ==> ChildCreateAllowed(next), write);
    }
  }

  lemma SaveKeeps(s: State, write: Write)
    requires Inv(s) && s.phase.Saving?
    ensures Inv(SaveStep(s, s.phase.at, s.phase.last, write))
  {
    var at := s.phase.at;
    var o := Saved(s.owner, s.hist[at], s.phase.last);
    if !write.Rejected? && Current(s, at) {
      assert s.hist[|s.hist|-1] == s.hist[at];
      assert s.hist[at].status.ready == Some(true) ==> CompletedAt(s.hist, s.completed, s.hist[at].status.observed);
      AppendKeeps(s, o);
      var t := Append(s, o);
      assert t.hist[|s.hist|] == o;
      assert CompletedAt(t.hist, t.completed, t.hist[at].generation);
    }
  }

  lemma FailKeeps(s: State, at: nat, observe: bool, write: Write)
    requires Inv(s) && at < |s.hist|
    ensures Inv(FailStep(s, at, observe, write))
  {
    var o := s.hist[at];
    if !write.Rejected? && Current(s, at) {
      AppendKeeps(s, o.(status := o.status.(ready := Some(false), observed := if observe then o.generation else o.status.observed)));
    }
  }

  /** A new spec, or none, from someone else. */
  lemma UserAppendKeeps(s: State, o: SuperStream)
    requires Inv(s) && var last := s.hist[|s.hist|-1];
             o == last || (o.generation > last.generation && o.status == last.status)
    ensures Inv(Append(s, o))
  {
    var last := s.hist[|s.hist|-1];
    assert last.status.ready == Some(true) ==> CompletedAt(s.hist, s.completed, last.status.observed);
    AppendKeeps(s, o);
  }

  lemma CacheKeeps(s: State, to: nat)
    requires Inv(s) && to < |s.hist|
    ensures Inv(s.(cacheAt := to))
  {
  }

  lemma CrashKeeps(s: State)
    requires Inv(s)
    ensures Inv(s.(phase := Idle))
  {
  }

  lemma OthersKeep(s: State, e: Event)
    requires Inv(s)
    ensures Inv(OthersStep(s, e))
  {
    if OthersStep(s, e) != s {
      var o := s.hist[|s.hist|-1];
      match e
      case UserUpdates(spec) => UserAppendKeeps(s, o.(spec := spec, generation := o.generation + 1));
      case UserTouches => UserAppendKeeps(s, o);
      case ChildEdited(slot, c) => StoreKeeps(s, slot, Some(c));
      case ChildDeleted(slot) => StoreKeeps(s, slot, None);
      case CacheAdvances(to) => CacheKeeps(s, to);
      case Crash => CrashKeeps(s);
      case _ =>
    }
  }

  lemma BeginKeeps(s: State, lookup: Lookup)
    requires Inv(s)
    ensures Inv(BeginStep(s, lookup))
  {
  }

  lemma ControllerKeeps(s: State, e: Event)
    requires Inv(s)
    ensures Inv(ControllerStep(s, e))
  {
    if ControllerStep(s, e) != s {
      match s.phase
      case Idle => BeginKeeps(s, e.lookup);
      case Applying(at, k) => ApplyKeeps(s, e.seen, e.write);
      case Saving(at, last) => SaveKeeps(s, e.write);
      case Failing(at) => FailKeeps(s, at, true, e.write);
      case Noting(at) => FailKeeps(s, at, false, e.write);
    }
  }

  lemma StepKeeps(s: State, e: Event)
    requires Inv(s)
    ensures Inv(Step(s, e))
  {
    if e.Begins? || e.Applies? || e.Saves? || e.Fails? {
      ControllerKeeps(s, e);
    } else {
      OthersKeep(s, e);
    }
  }

  lemma {:induction false} RunKeeps(s: State, es: seq<Event>)
    requires Inv(s)
    ensures Inv(Run(s, es))
    decreases |es|
  {
    if es != [] {
      StepKeeps(s, es[0]);
      RunKeeps(Step(s, es[0]), es[1..]);
    }
  }

  lemma {:induction false} RunThenRun(s: State, es: seq<Event>, fs: seq<Event>)
    requires Well(s)
    ensures Run(s, es + fs) == Run(Run(s, es), fs)
    decreases |es|
  {
    if es == [] {
      assert es + fs == fs;
    } else {
      assert (es + fs)[1..] == es[1..] + fs;
      RunThenRun(Step(s, es[0]), es[1..], fs);
    }
  }

  lemma RunThenStep(s: State, es: seq<Event>, e: Event)
    requires Well(s)
    ensures Run(s, es + [e]) == Step(Run(s, es), e)
  {
    RunThenRun(s, es, [e]);
    assert [e][1..] == [];
  }

  /** Even without webhooks the stored partition list never gets shorter. */
  lemma PartitionsNeverShrink(s: State, es: seq<Event>, i: nat, j: nat)
    requires Start(s) && i <= j < |Run(s, es).hist|
    ensures |Run(s, es).hist[i].status.partitions| <= |Run(s, es).hist[j].status.partitions|
  {
    RunKeeps(s, es);
    assert Grown(Run(s, es).hist[i], Run(s, es).hist[j]);
  }

  /** Ready, with observed generation g, is stored only after every child of the spec of generation
      g was: one spec has that generation, and for each of its 1 + 2n children some stored version
      is what the controller makes of it for that spec. */
  lemma ReadyMeansComplete(s: State, es: seq<Event>, i: nat) returns (d: nat)
    requires Start(s) && i < |Run(s, es).hist| && Run(s, es).hist[i].status.ready == Some(true)
    ensures var t := Run(s, es);
            && d < |t.hist| && t.hist[d].generation == t.hist[i].status.observed
            && (forall j :: 0 <= j < |t.hist| && t.hist[j].generation == t.hist[i].status.observed ==>
                  t.hist[j].spec == t.hist[d].spec)
            && EffectiveKeys(t.hist[d].spec).Some?
            && forall j :: 0 <= j < 1 + 2 * |EffectiveKeys(t.hist[d].spec).value| ==>
                 Written(t.owner, t.hist[d].spec, t.children, SlotAt(j))
  {
    RunKeeps(s, es);
    var t := Run(s, es);
    d :| d in t.completed && d < |t.hist| && t.hist[d].generation == t.hist[i].status.observed;
    forall j | 0 <= j < |t.hist| && t.hist[j].generation == t.hist[d].generation ensures t.hist[j].spec == t.hist[d].spec {
      assert j <= d ==> Grown(t.hist[j], t.hist[d]);
      assert d <= j ==> Grown(t.hist[d], t.hist[j]);
    }
  }
}
