/** With the webhooks in place, what they let into a SuperStream never makes the controller write a
    child that the child's own webhook refuses. */
module AdmissionClosure {
  import opened Types
  import opened Admission
  import opened SuperStreams
  import opened SuperStreamRuns

  /** What a chain of accepted updates keeps. */
  ghost predicate SpecLater(a: SuperStreamSpec, b: SuperStreamSpec) {
    && b.vhost == a.vhost && b.cluster == a.cluster
    && forall i: nat :: HasKey(a, i) ==> HasKey(b, i) && KeyAt(b, i) == KeyAt(a, i)
  }

  lemma AcceptedIsLater(a: SuperStreamSpec, b: SuperStreamSpec)
    requires SuperStreamUpdateAllowed(a, b)
    ensures SpecLater(a, b)
  {
    forall i: nat | HasKey(a, i) ensures HasKey(b, i) && KeyAt(b, i) == KeyAt(a, i) {
      KeysStable(a, b, i);
    }
  }

  /** The stored partition list names the streams of the first keys, in order. */
  ghost predicate Lists(owner: Owner, o: SuperStream) {
    forall i :: 0 <= i < |o.status.partitions| ==>
      HasKey(o.spec, i) && o.status.partitions[i] == PartitionQueue(owner.name, KeyAt(o.spec, i))
  }

  ghost predicate Later(a: SuperStream, b: SuperStream) {
    SpecLater(a.spec, b.spec) && a.status.partitions <= b.status.partitions
  }

  ghost predicate ChildrenSettled(s: State)
    requires Well(s)
  {
    forall slot, j :: slot in s.children && 0 <= j < |s.children[slot]| && s.children[slot][j].Some? ==>
      Settled(s.owner, s.hist[|s.hist|-1].spec, slot, s.children[slot][j].value)
  }

  ghost predicate Adm(s: State) {
    && Inv(s) && s.admission && !s.refused
    && (forall i, j :: 0 <= i <= j < |s.hist| ==> Later(s.hist[i], s.hist[j]))
    && (forall i :: 0 <= i < |s.hist| ==> Lists(s.owner, s.hist[i]))
    && ChildrenSettled(s)
  }

  // ---------------------------------------------------------------- settled children stay settled

  lemma SettledLater(owner: Owner, a: SuperStreamSpec, b: SuperStreamSpec, slot: Slot, c: Child)
    requires SpecLater(a, b) && Keyed(a, slot) && Fits(slot, c)
    ensures Settled(owner, a, slot, c) <==> Settled(owner, b, slot, c)
  {
  }

  /** Edits of a child that its webhook accepts do not touch what the controller sets. */
  lemma EditedStaysSettled(owner: Owner, spec: SuperStreamSpec, slot: Slot, c: Child, c': Child)
    requires Settled(owner, spec, slot, c) && Fits(slot, c') && ChildUpdateAllowed(c, c') && SuperStreams.Stored(c') == c'
    ensures Settled(owner, spec, slot, c')
  {
  }

  /** A freshly created child is settled and its webhook accepts it. */
  lemma CreatedIsSettled(owner: Owner, spec: SuperStreamSpec, slot: Slot)
    requires Keyed(spec, slot) && spec.cluster.name != ""
    ensures var c := SuperStreams.Stored(Updated(owner, spec, slot, Blank(slot)));
            Settled(owner, spec, slot, c) && ChildCreateAllowed(c)
  {
  }

  // ---------------------------------------------------------------- every step keeps it

  lemma AppendAdm(s: State, o: SuperStream)
    requires Adm(s) && Inv(Append(s, o)) && Later(s.hist[|s.hist|-1], o) && Lists(s.owner, o)
    ensures Adm(Append(s, o))
  {
    var t := Append(s, o);
    var last := s.hist[|s.hist|-1];
    forall i, j | 0 <= i <= j < |t.hist| ensures Later(t.hist[i], t.hist[j]) {
      if j == |s.hist| && i < j {
        assert Later(s.hist[i], last);
      }
    }
    forall slot, j | slot in t.children && 0 <= j < |t.children[slot]| && t.children[slot][j].Some?
      ensures Settled(t.owner, o.spec, slot, t.children[slot][j].value)
    {
      SettledLater(s.owner, last.spec, o.spec, slot, s.children[slot][j].value);
    }
  }

  lemma StoreAdm(s: State, slot: Slot, c: Option<Child>)
    requires Adm(s)
    requires c.Some? ==> Settled(s.owner, s.hist[|s.hist|-1].spec, slot, c.value)
    ensures Adm(StoreChild(s, slot, c))
  {
    StoreKeeps(s, slot, c);
  }

  /** The list written at the end of a reconcile continues the one stored before. */
  lemma SavedContinues(s: State, last: bool)
    requires Adm(s) && s.phase.Saving? && Current(s, s.phase.at)
    ensures var o := Saved(s.owner, s.hist[s.phase.at], last);
            Later(s.hist[|s.hist|-1], o) && Lists(s.owner, o)
  {
    var was := s.hist[s.phase.at];
    var names := QueueNames(s.owner, was.spec);
    forall i | 0 <= i < |names|
      ensures HasKey(was.spec, i) && names[i] == PartitionQueue(s.owner.name, KeyAt(was.spec, i))
    {
      EffectiveKeysAt(was.spec, i);
    }
    assert |was.status.partitions| <= |names|;
    assert Lists(s.owner, was);
    forall i | 0 <= i < |was.status.partitions| ensures was.status.partitions[i] == names[i] {
    }
  }

  /** Whatever version of a child the cache shows, writing it again changes nothing. */
  lemma NeverRewritten(s: State, seen: nat)
    requires Adm(s) && s.phase.Applying?
    requires var slot := SlotAt(s.phase.k);
             Keyed(s.hist[s.phase.at].spec, slot) && seen < |Versions(s, slot)| && Versions(s, slot)[seen].Some?
    ensures Settled(s.owner, s.hist[s.phase.at].spec, SlotAt(s.phase.k), Versions(s, SlotAt(s.phase.k))[seen].value)
  {
    var slot := SlotAt(s.phase.k);
    assert Later(s.hist[s.phase.at], s.hist[|s.hist|-1]);
    assert slot in s.children && s.children[slot][seen].Some?;
    SettledLater(s.owner, s.hist[s.phase.at].spec, s.hist[|s.hist|-1].spec, slot, s.children[slot][seen].value);
  }

  lemma AdvanceAdm(s: State, at: nat, k: nat)
    requires Adm(s) && at < |s.hist| && Inv(Advance(s, at, k))
    ensures Adm(Advance(s, at, k))
  {
  }

  /** A write of a settled child. */
  lemma WriteAdm(s: State, next: Child, write: Write)
    requires Adm(s) && s.phase.Applying? && Settled(s.owner, s.hist[|s.hist|-1].spec, SlotAt(s.phase.k), next)
    ensures Adm(WriteChild(s, s.phase.at, s.phase.k, next, true, write))
  {
    StoreAdm(s, SlotAt(s.phase.k), Some(next));
    WriteChildKeeps(s, next, true, write);
  }

  lemma CreateAdm(s: State, write: Write)
    requires Adm(s) && s.phase.Applying? && Keyed(s.hist[s.phase.at].spec, SlotAt(s.phase.k))
    ensures var next := SuperStreams.Stored(Updated(s.owner, s.hist[s.phase.at].spec, SlotAt(s.phase.k), Blank(SlotAt(s.phase.k))));
            Adm(WriteChild(s, s.phase.at, s.phase.k, next, ChildCreateAllowed(next), write))
  {
    var at, slot := s.phase.at, SlotAt(s.phase.k);
    var next := SuperStreams.Stored(Updated(s.owner, s.hist[at].spec, slot, Blank(slot)));
    CreatedIsSettled(s.owner, s.hist[at].spec, slot);
    assert Later(s.hist[at], s.hist[|s.hist|-1]);
    SettledLater(s.owner, s.hist[at].spec, s.hist[|s.hist|-1].spec, slot, next);
    WriteAdm(s, next, write);
  }

  lemma ApplyAdm(s: State, seen: nat, write: Write)
    requires Adm(s) && s.phase.Applying? && Keyed(s.hist[s.phase.at].spec, SlotAt(s.phase.k))
    ensures Adm(ApplyStep(s, s.phase.at, s.phase.k, seen, write))
  {
    var v := Versions(s, SlotAt(s.phase.k));
    ApplyKeeps(s, seen, write);
    if seen < |v| && v[seen].Some? {
      NeverRewritten(s, seen);
      AdvanceAdm(s, s.phase.at, s.phase.k);
    } else {
      CreateAdm(s, write);
    }
  }

  lemma SaveAdm(s: State, write: Write)
    requires Adm(s) && s.phase.Saving?
    ensures Adm(SaveStep(s, s.phase.at, s.phase.last, write))
  {
    SaveKeeps(s, write);
    if !write.Rejected? && Current(s, s.phase.at) {
      var o := Saved(s.owner, s.hist[s.phase.at], s.phase.last);
      SavedContinues(s, s.phase.last);
      SavedKeepsInv(s);
      AppendAdm(s, o);
    }
  }

  lemma SavedKeepsInv(s: State)
    requires Inv(s) && s.phase.Saving? && Current(s, s.phase.at)
    ensures Inv(Append(s, Saved(s.owner, s.hist[s.phase.at], s.phase.last)))
  {
    var o := s.hist[s.phase.at];
    assert o.status.ready == Some(true) ==> CompletedAt(s.hist, s.completed, o.status.observed);
    AppendKeeps(s, Saved(s.owner, o, s.phase.last));
  }

  lemma FailAdm(s: State, at: nat, observe: bool, write: Write)
    requires Adm(s) && at < |s.hist|
    ensures Adm(FailStep(s, at, observe, write))
  {
    FailKeeps(s, at, observe, write);
    if !write.Rejected? && Current(s, at) {
      var o := s.hist[at];
      var o' := o.(status := o.status.(ready := Some(false), observed := if observe then o.generation else o.status.observed));
      AppendKeeps(s, o');
      assert Later(s.hist[at], s.hist[at]) && Lists(s.owner, s.hist[at]);
      AppendAdm(s, o');
    }
  }

  lemma EditAdm(s: State, slot: Slot, c: Child)
    requires Adm(s) && CurrentChild(s, slot).Some? && Fits(slot, c) && SuperStreams.Stored(c) == c
    requires ChildUpdateAllowed(CurrentChild(s, slot).value, c)
    ensures Adm(StoreChild(s, slot, Some(c)))
  {
    EditedStaysSettled(s.owner, s.hist[|s.hist|-1].spec, slot, CurrentChild(s, slot).value, c);
    StoreAdm(s, slot, Some(c));
  }

  lemma OthersAdm(s: State, e: Event)
    requires Adm(s)
    ensures Adm(OthersStep(s, e))
  {
    OthersKeep(s, e);
    var o := s.hist[|s.hist|-1];
    assert Later(o, o) && Lists(s.owner, o);
    match e
    case UserUpdates(spec) =>
      if OthersStep(s, e) != s {
        AcceptedIsLater(o.spec, spec);
        AppendAdm(s, o.(spec := spec, generation := o.generation + 1));
      }
    case UserTouches => AppendAdm(s, o);
    case ChildEdited(slot, c) => if OthersStep(s, e) != s { EditAdm(s, slot, c); }
    case ChildDeleted(slot) => StoreAdm(s, slot, None);
    case _ =>
  }

  lemma ControllerAdm(s: State, e: Event)
    requires Adm(s)
    ensures Adm(ControllerStep(s, e))
  {
    ControllerKeeps(s, e);
    if ControllerStep(s, e) != s {
      match s.phase
      case Idle =>
      case Applying(at, k) => ApplyAdm(s, e.seen, e.write);
      case Saving(at, last) => SaveAdm(s, e.write);
      case Failing(at) => FailAdm(s, at, true, e.write);
      case Noting(at) => FailAdm(s, at, false, e.write);
    }
  }

  lemma {:induction false} RunAdm(s: State, es: seq<Event>)
    requires Adm(s)
    ensures Adm(Run(s, es))
    decreases |es|
  {
    if es != [] {
      var e := es[0];
      if e.Begins? || e.Applies? || e.Saves? || e.Fails? { ControllerAdm(s, e); } else { OthersAdm(s, e); }
      RunAdm(Step(s, e), es[1..]);
    }
  }

  // ---------------------------------------------------------------- whole runs

  /** Admission closure: however accepted SuperStream updates, accepted child edits, child
      deletions, crashes and stale reads interleave with reconciles, no webhook ever refuses a
      child write of the controller. */
  lemma NeverRefused(s: State, es: seq<Event>)
    requires Start(s) && s.admission
    ensures !Run(s, es).refused
  {
    RunAdm(s, es);
  }

  /** And a child, once stored, is never rewritten: every stored version already is what the
      controller wants it to be. */
  lemma ChildrenNeverRewritten(s: State, es: seq<Event>, seen: nat)
    requires Start(s) && s.admission
    requires var t := Run(s, es);
             && t.phase.Applying? && Keyed(t.hist[t.phase.at].spec, SlotAt(t.phase.k))
             && seen < |Versions(t, SlotAt(t.phase.k))| && Versions(t, SlotAt(t.phase.k))[seen].Some?
    ensures var t := Run(s, es);
            Settled(t.owner, t.hist[t.phase.at].spec, SlotAt(t.phase.k), Versions(t, SlotAt(t.phase.k))[seen].value)
  {
    RunAdm(s, es);
    NeverRewritten(Run(s, es), seen);
  }

  /** Append-only partitions: the stored list names the streams of a prefix of the keys in effect,
      and later lists only add to its end. */
  lemma PartitionsAppendOnly(s: State, es: seq<Event>, i: nat, j: nat)
    requires Start(s) && s.admission && i <= j < |Run(s, es).hist|
    ensures var h := Run(s, es).hist;
            && h[i].status.partitions <= h[j].status.partitions
            && Lists(s.owner, h[j])
  {
    RunAdm(s, es);
    assert Later(Run(s, es).hist[i], Run(s, es).hist[j]);
  }

  /** What the SuperStream webhook is for: had an update moved partition i to another key, the
      queue and the binding webhook would refuse the controller's update of its children; and
      they refuse it only then. */
  lemma RefusedExactlyWhenKeyMoves(owner: Owner, a: SuperStreamSpec, b: SuperStreamSpec, i: nat)
    requires HasKey(a, i) && HasKey(b, i) && a.vhost == b.vhost && a.cluster == b.cluster
    ensures var c := SuperStreams.Stored(Updated(owner, a, PartitionSlot(i), Blank(PartitionSlot(i))));
            ChildUpdateAllowed(c, SuperStreams.Stored(Updated(owner, b, PartitionSlot(i), c))) <==> KeyAt(a, i) == KeyAt(b, i)
    ensures var c := SuperStreams.Stored(Updated(owner, a, BindingSlot(i), Blank(BindingSlot(i))));
            ChildUpdateAllowed(c, SuperStreams.Stored(Updated(owner, b, BindingSlot(i), c))) <==> KeyAt(a, i) == KeyAt(b, i)
  {
    PartitionQueueRoundTrip(owner.name, KeyAt(a, i), KeyAt(b, i));
  }
}
