/** One SuperStream reconcile as the program it is, on the stored children and the status, with the
    API call that fails (if any) as an input: what exactly it leaves behind. A ghost copy of the
    machine in SuperStreamRuns takes a step with every call, so every such reconcile is a run of
    it, and what is proved of all runs holds here. */
module SuperStreamReconciling {
  import opened Types
  import opened Admission
  import opened SuperStreams
  import opened SuperStreamRuns
  import opened AdmissionClosure

  type Children = map<string, Child>

  /** Children stored under the controller's names are of the right kind. */
  ghost predicate WellNamed(owner: Owner, m: Children) {
    forall slot :: ChildName(owner.name, slot) in m ==> Fits(slot, m[ChildName(owner.name, slot)])
  }

  /** The child a slot should hold, given what is stored under its name. */
  function Wanted(owner: Owner, spec: SuperStreamSpec, m: Children, slot: Slot): Child
    requires Keyed(spec, slot)
    requires ChildName(owner.name, slot) in m ==> Fits(slot, m[ChildName(owner.name, slot)])
  {
    var name := ChildName(owner.name, slot);
    SuperStreams.Stored(Updated(owner, spec, slot, if name in m then m[name] else Blank(slot)))
  }

  /** The child's webhook accepts it. */
  predicate ChildAccepted(owner: Owner, spec: SuperStreamSpec, m: Children, slot: Slot)
    requires ChildName(owner.name, slot) in m ==> Fits(slot, m[ChildName(owner.name, slot)])
    requires Keyed(spec, slot)
  {
    var name := ChildName(owner.name, slot);
    var next := Wanted(owner, spec, m, slot);
    if name in m then ChildUpdateAllowed(m[name], next) else ChildCreateAllowed(next)
  }

  /** The child has to be written, and its write fails or is refused. */
  predicate Blocked(owner: Owner, spec: SuperStreamSpec, m: Children, slot: Slot, fails: bool)
    requires ChildName(owner.name, slot) in m ==> Fits(slot, m[ChildName(owner.name, slot)])
    requires Keyed(spec, slot)
  {
    var name := ChildName(owner.name, slot);
    && !(name in m && m[name] == Wanted(owner, spec, m, slot))
    && (fails || !ChildAccepted(owner, spec, m, slot))
  }

  function Entry(m: Children, name: string): Option<Child> {
    if name in m then Some(m[name]) else None
  }

  /** The machine's current children are these. */
  ghost predicate Mirrors(owner: Owner, s: State, m: Children) {
    forall slot :: CurrentChild(s, slot) == Entry(m, ChildName(owner.name, slot))
  }

  lemma MirrorsStore(owner: Owner, s: State, m: Children, slot: Slot, c: Child)
    requires Mirrors(owner, s, m)
    ensures Mirrors(owner, StoreChild(s, slot, Some(c)), m[ChildName(owner.name, slot) := c])
  {
    forall other ensures CurrentChild(StoreChild(s, slot, Some(c)), other)
                         == Entry(m[ChildName(owner.name, slot) := c], ChildName(owner.name, other))
    {
      assert CurrentChild(s, other) == Entry(m, ChildName(owner.name, other));
      if ChildName(owner.name, other) == ChildName(owner.name, slot) {
        ChildNamesDistinct(owner.name, other, slot);
      }
    }
  }

  /** The event of a CreateOrUpdate that reads the current child. */
  ghost function Applied(s: State, slot: Slot, write: Write): Event {
    var v := Versions(s, slot);
    Applies(if v == [] then 0 else |v| - 1, write)
  }

  /** What that event does. */
  lemma AppliedStep(owner: Owner, s: State, m: Children, k: nat, fails: bool)
    requires Well(s) && s.admission && s.owner == owner && s.phase.Applying? && s.phase.k == k
    requires Mirrors(owner, s, m) && WellNamed(owner, m) && Keyed(s.hist[s.phase.at].spec, SlotAt(k))
    ensures var at, slot := s.phase.at, SlotAt(k);
            var spec, name := s.hist[at].spec, ChildName(owner.name, slot);
            var next := Wanted(owner, spec, m, slot);
            Step(s, Applied(s, slot, if fails then Rejected else Accepted)) ==
              if name in m && m[name] == next then Advance(s, at, k)
              else if fails then s.(phase := Failing(at))
              else if !ChildAccepted(owner, spec, m, slot) then s.(refused := true, phase := Failing(at))
              else Advance(StoreChild(s, slot, Some(next)), at, k)
  {
    assert CurrentChild(s, SlotAt(k)) == Entry(m, ChildName(owner.name, SlotAt(k)));
  }

  /** The children after the child of this slot was applied. */
  function WithApplied(owner: Owner, spec: SuperStreamSpec, m: Children, slot: Slot, fails: bool): Children
    requires ChildName(owner.name, slot) in m ==> Fits(slot, m[ChildName(owner.name, slot)])
    requires Keyed(spec, slot)
  {
    if Blocked(owner, spec, m, slot, fails) then m else m[ChildName(owner.name, slot) := Wanted(owner, spec, m, slot)]
  }

  lemma WithAppliedNamed(owner: Owner, spec: SuperStreamSpec, m: Children, slot: Slot, fails: bool)
    requires WellNamed(owner, m) && Keyed(spec, slot)
    ensures WellNamed(owner, WithApplied(owner, spec, m, slot, fails))
  {
    forall other | ChildName(owner.name, other) == ChildName(owner.name, slot) ensures other == slot {
      ChildNamesDistinct(owner.name, other, slot);
    }
  }

  /** The machine and the program stay together over a CreateOrUpdate. */
  lemma AppliedMirrors(owner: Owner, s: State, m: Children, k: nat, fails: bool)
    requires Well(s) && s.admission && s.owner == owner && s.phase.Applying? && s.phase.k == k
    requires Mirrors(owner, s, m) && WellNamed(owner, m) && Keyed(s.hist[s.phase.at].spec, SlotAt(k))
    ensures var at, slot := s.phase.at, SlotAt(k);
            var spec := s.hist[at].spec;
            var t := Step(s, Applied(s, slot, if fails then Rejected else Accepted));
            && t.hist == s.hist && t.cacheAt == s.cacheAt && t.owner == owner && t.admission
            && Mirrors(owner, t, WithApplied(owner, spec, m, slot, fails))
            && (Blocked(owner, spec, m, slot, fails) ==> t.phase == Failing(at) && (fails || t.refused))
            && (!Blocked(owner, spec, m, slot, fails) ==>
                  t.phase == if k < 2 * Size(spec) then Applying(at, k + 1) else Saving(at, false))
  {
    var at, slot := s.phase.at, SlotAt(k);
    var name := ChildName(owner.name, slot);
    var next := Wanted(owner, s.hist[at].spec, m, slot);
    var t := Step(s, Applied(s, slot, if fails then Rejected else Accepted));
    AppliedStep(owner, s, m, k, fails);
    if name in m && m[name] == next {
      assert m[name := next] == m;
      SameChildren(owner, s, t, m);
    } else if Blocked(owner, s.hist[at].spec, m, slot, fails) {
      SameChildren(owner, s, t, m);
    } else {
      var u := StoreChild(s, slot, Some(next));
      MirrorsStore(owner, s, m, slot, next);
      SameChildren(owner, u, t, m[name := next]);
    }
  }

  lemma SameChildren(owner: Owner, s: State, t: State, m: Children)
    requires Mirrors(owner, s, m) && t.children == s.children
    ensures Mirrors(owner, t, m)
  {
    forall slot ensures CurrentChild(t, slot) == Entry(m, ChildName(owner.name, slot)) {
      assert CurrentChild(s, slot) == Entry(m, ChildName(owner.name, slot));
    }
  }

  /** The name belongs to one of the first k children. */
  ghost predicate Taken(owner: Owner, k: nat, name: string) {
    exists j :: 0 <= j < k && ChildName(owner.name, SlotAt(j)) == name
  }

  predicate SameEntry(before: Children, after: Children, name: string) {
    (name in after <==> name in before) && (name in after ==> after[name] == before[name])
  }

  predicate IsWanted(owner: Owner, spec: SuperStreamSpec, before: Children, after: Children, slot: Slot)
    requires ChildName(owner.name, slot) in before ==> Fits(slot, before[ChildName(owner.name, slot)])
  {
    Keyed(spec, slot) && ChildName(owner.name, slot) in after
    && after[ChildName(owner.name, slot)] == Wanted(owner, spec, before, slot)
  }

  /** The first k children, and nothing else, are as wanted; all other entries are as before. */
  ghost predicate FirstApplied(owner: Owner, spec: SuperStreamSpec, before: Children, after: Children, k: nat)
    requires WellNamed(owner, before)
  {
    && (forall j :: 0 <= j < k ==> IsWanted(owner, spec, before, after, SlotAt(j)))
    && (forall name :: !Taken(owner, k, name) ==> SameEntry(before, after, name))
  }

  lemma PlacesDistinct(owner: Owner, j: nat, k: nat)
    requires ChildName(owner.name, SlotAt(j)) == ChildName(owner.name, SlotAt(k))
    ensures j == k
  {
    ChildNamesDistinct(owner.name, SlotAt(j), SlotAt(k));
    SlotsDistinct(j, k);
  }

  lemma NextUntouched(owner: Owner, spec: SuperStreamSpec, before: Children, after: Children, k: nat)
    requires WellNamed(owner, before) && FirstApplied(owner, spec, before, after, k)
    ensures SameEntry(before, after, ChildName(owner.name, SlotAt(k)))
  {
    if Taken(owner, k, ChildName(owner.name, SlotAt(k))) {
      var j :| 0 <= j < k && ChildName(owner.name, SlotAt(j)) == ChildName(owner.name, SlotAt(k));
      PlacesDistinct(owner, j, k);
    }
  }

  lemma OneMoreApplied(owner: Owner, spec: SuperStreamSpec, before: Children, after: Children, k: nat)
    requires WellNamed(owner, before) && Keyed(spec, SlotAt(k)) && FirstApplied(owner, spec, before, after, k)
    ensures FirstApplied(owner, spec, before, after[ChildName(owner.name, SlotAt(k)) := Wanted(owner, spec, before, SlotAt(k))], k + 1)
  {
    var name := ChildName(owner.name, SlotAt(k));
    var after' := after[name := Wanted(owner, spec, before, SlotAt(k))];
    forall j | 0 <= j < k + 1 ensures IsWanted(owner, spec, before, after', SlotAt(j)) {
      if j < k {
        assert IsWanted(owner, spec, before, after, SlotAt(j));
        if ChildName(owner.name, SlotAt(j)) == name { PlacesDistinct(owner, j, k); }
      }
    }
    forall other | !Taken(owner, k + 1, other) ensures SameEntry(before, after', other) {
      assert other != name;
      assert SameEntry(before, after, other);
    }
  }

  /** What n keys expand to, in one statement: 1 + 2n children under pairwise different names;
      partition i is a durable stream named after key i, and binding i routes key i from the
      SuperStream's exchange to that very stream, with order i. */
  lemma FanOutExact(owner: Owner, spec: SuperStreamSpec, before: Children, after: Children, i: nat)
    requires WellNamed(owner, before) && EffectiveKeys(spec).Some? && i < |EffectiveKeys(spec).value|
    requires FirstApplied(owner, spec, before, after, 1 + 2 * |EffectiveKeys(spec).value|)
    ensures var key := EffectiveKeys(spec).value[i];
            var n := Decimals.Decimal(i);
            var x, p, b := owner.name + "-exchange", owner.name + "-partition-" + n, owner.name + "-binding-" + n;
            && x in after && p in after && b in after
            && after[x].ExchangeChild? && after[p].QueueChild? && after[b].BindingChild?
            && after[x].exchange.name == owner.name && after[x].exchange.durable
            && after[p].queue.name == owner.name + "-" + key
            && after[p].queue.kind == "stream" && after[p].queue.durable == Some(true)
            && after[b].binding.source == after[x].exchange.name
            && after[b].binding.destination == after[p].queue.name && after[b].binding.destinationType == "queue"
            && after[b].binding.routingKey == key
            && after[b].binding.arguments == Some(map["x-stream-partition-order" := n])
            && after[x].exchange.cluster == after[p].queue.cluster == after[b].binding.cluster
            && SelectsAlike(owner, spec, after[x].exchange.cluster)
            && after[x].exchange.vhost == after[p].queue.vhost == after[b].binding.vhost
               == if spec.vhost == "" then "/" else spec.vhost
    ensures forall j, k :: 0 <= j < k < 1 + 2 * |EffectiveKeys(spec).value| ==>
              ChildName(owner.name, SlotAt(j)) != ChildName(owner.name, SlotAt(k))
  {
    EffectiveKeysAt(spec, i);
    assert SlotAt(0) == ExchangeSlot && SlotAt(1 + 2 * i) == PartitionSlot(i) && SlotAt(2 + 2 * i) == BindingSlot(i);
    assert IsWanted(owner, spec, before, after, SlotAt(0));
    assert IsWanted(owner, spec, before, after, SlotAt(1 + 2 * i));
    assert IsWanted(owner, spec, before, after, SlotAt(2 + 2 * i));
    forall j, k | 0 <= j < k < 1 + 2 * |EffectiveKeys(spec).value|
      ensures ChildName(owner.name, SlotAt(j)) != ChildName(owner.name, SlotAt(k))
    {
      if ChildName(owner.name, SlotAt(j)) == ChildName(owner.name, SlotAt(k)) { PlacesDistinct(owner, j, k); }
    }
  }

  /** The streams among the first k children, in key order. */
  function NamesOf(owner: Owner, keys: seq<string>, k: nat): seq<string>
    requires k / 2 <= |keys|
  {
    seq(k / 2, i requires 0 <= i < k / 2 => PartitionQueue(owner.name, keys[i]))
  }

  lemma NamesGrow(owner: Owner, keys: seq<string>, k: nat)
    requires k < 1 + 2 * |keys|
    ensures if SlotAt(k).PartitionSlot?
            then SlotAt(k).index < |keys|
                 && NamesOf(owner, keys, k + 1) == NamesOf(owner, keys, k) + [PartitionQueue(owner.name, keys[SlotAt(k).index])]
            else NamesOf(owner, keys, k + 1) == NamesOf(owner, keys, k)
  {
    if k % 2 == 1 {
      assert k / 2 == (k - 1) / 2 && (k + 1) / 2 == k / 2 + 1;
    } else {
      assert (k + 1) / 2 == k / 2;
    }
  }

  /** What the k-th turn over the builders needs: a key, and the stream it adds to the list. */
  lemma TurnNames(owner: Owner, spec: SuperStreamSpec, keys: seq<string>, k: nat)
    requires EffectiveKeys(spec) == Some(keys) && k < 1 + 2 * |keys|
    ensures Keyed(spec, SlotAt(k))
    ensures NamesOf(owner, keys, k + 1)
            == NamesOf(owner, keys, k)
               + (if SlotAt(k).PartitionSlot? then [PartitionQueue(owner.name, KeyAt(spec, SlotAt(k).index))] else [])
  {
    NamesGrow(owner, keys, k);
    if k > 0 { EffectiveKeysAt(spec, SlotAt(k).index); }
  }

  /** None of the first k children is blocked. */
  ghost predicate Clear(owner: Owner, spec: SuperStreamSpec, before: Children, k: nat, failAt: nat)
    requires WellNamed(owner, before)
  {
    forall j :: 0 <= j < k ==> Open(owner, spec, before, j, failAt)
  }

  predicate Open(owner: Owner, spec: SuperStreamSpec, before: Children, j: nat, failAt: nat)
    requires ChildName(owner.name, SlotAt(j)) in before ==> Fits(SlotAt(j), before[ChildName(owner.name, SlotAt(j))])
  {
    Keyed(spec, SlotAt(j)) && !Blocked(owner, spec, before, SlotAt(j), j == failAt)
  }

  lemma ClearMore(owner: Owner, spec: SuperStreamSpec, before: Children, k: nat, failAt: nat)
    requires WellNamed(owner, before) && Clear(owner, spec, before, k, failAt) && Open(owner, spec, before, k, failAt)
    ensures Clear(owner, spec, before, k + 1, failAt)
  {
  }

  /** Before a reconcile someone may edit the spec; then the cluster is looked up, and one of the
      controller's writes may fail. */
  datatype Turn = Turn(edit: SuperStreamSpec, lookup: Lookup, failAt: nat)

  datatype Result = NoCluster | NotAllowed | ScaledDown | KeyMismatch | FailedAt(k: nat) | Reconciled

  class SuperStreamReconciler {
    const owner: Owner
    var spec: SuperStreamSpec
    var generation: nat
    var status: Status
    var children: Children
    ghost var machine: State

    ghost predicate Valid()
      reads this
    {
      && WellNamed(owner, children)
      && Well(machine) && machine.admission && machine.owner == owner && machine.cacheAt + 1 == |machine.hist|
      && machine.hist[machine.cacheAt] == SuperStream(spec, generation, status)
      && Mirrors(owner, machine, children)
    }

    constructor (owner: Owner, spec: SuperStreamSpec)
      ensures Valid() && Start(machine) && this.owner == owner && this.spec == spec
    {
      this.owner, this.spec := owner, spec;
      generation, status, children := 1, Status([], None, 0), map[];
      machine := State(owner, true, [SuperStream(spec, 1, Status([], None, 0))], 0, map[], false, {}, Idle);
    }

    /** The phase after k children. */
    ghost function After(k: nat): Phase
      reads this
    {
      if k <= 2 * Size(spec) then Applying(machine.cacheAt, k) else Saving(machine.cacheAt, false)
    }

    /** controllerutil.CreateOrUpdate with the builder's Update, of the k-th child. */
    method CreateOrUpdate(k: nat, fails: bool) returns (ok: bool, ghost e: Event)
      requires Valid() && k <= 2 * Size(spec) && machine.phase == After(k) && Keyed(spec, SlotAt(k))
      modifies this`children, this`machine
      ensures Valid() && machine == Step(old(machine), e) && machine.hist == old(machine.hist)
      ensures machine.phase == if ok then After(k + 1) else Failing(machine.cacheAt)
      ensures ok <==> !Blocked(owner, spec, old(children), SlotAt(k), fails)
      ensures children == if ok then old(children)[ChildName(owner.name, SlotAt(k)) := Wanted(owner, spec, old(children), SlotAt(k))]
                          else old(children)
      ensures !ok ==> fails || machine.refused
    {
      e := Applied(machine, SlotAt(k), if fails then Rejected else Accepted);
      AppliedMirrors(owner, machine, children, k, fails);
      WithAppliedNamed(owner, spec, children, SlotAt(k), fails);
      machine := Step(machine, e);
      ok := Write(SlotAt(k), fails);
    }

    /** Create, update, or nothing if the child is as wanted. */
    method Write(slot: Slot, fails: bool) returns (ok: bool)
      requires WellNamed(owner, children) && Keyed(spec, slot)
      modifies this`children
      ensures children == WithApplied(owner, spec, old(children), slot, fails)
      ensures ok <==> !Blocked(owner, spec, old(children), slot, fails)
    {
      var name := ChildName(owner.name, slot);
      var next := Wanted(owner, spec, children, slot);
      if name in children && children[name] == next {
        assert children == children[name := next];
        return true;
      }
      ok := !fails && if name in children then ChildUpdateAllowed(children[name], next) else ChildCreateAllowed(next);
      if ok {
        children := children[name := next];
      }
    }

    /** The k-th child, after the first k. */
    method ApplyChild(k: nat, failAt: nat, ghost before: Children) returns (ok: bool, queue: string, ghost e: Event)
      requires Valid() && k <= 2 * Size(spec) && machine.phase == After(k) && Keyed(spec, SlotAt(k))
      requires WellNamed(owner, before) && FirstApplied(owner, spec, before, children, k)
      modifies this`children, this`machine
      ensures Valid() && machine == Step(old(machine), e) && machine.hist == old(machine.hist)
      ensures machine.phase == if ok then After(k + 1) else Failing(machine.cacheAt)
      ensures FirstApplied(owner, spec, before, children, if ok then k + 1 else k)
      ensures ok <==> Open(owner, spec, before, k, failAt)
      ensures !ok ==> k == failAt || machine.refused
      ensures ok && SlotAt(k).PartitionSlot? ==> queue == PartitionQueue(owner.name, KeyAt(spec, SlotAt(k).index))
    {
      NextUntouched(owner, spec, before, children, k);
      OneMoreApplied(owner, spec, before, children, k);
      assert Wanted(owner, spec, children, SlotAt(k)) == Wanted(owner, spec, before, SlotAt(k));
      ok, e := CreateOrUpdate(k, k == failAt);
      queue := "";
      if ok && SlotAt(k).PartitionSlot? {
        queue := children[ChildName(owner.name, SlotAt(k))].queue.name;
      }
    }

    /** The loop over the builders; `failAt` is the call the API server fails, if any. */
    method ApplyChildren(keys: seq<string>, failAt: nat) returns (k: nat, names: seq<string>, ghost log: seq<Event>)
      requires Valid() && EffectiveKeys(spec) == Some(keys) && machine.phase == After(0)
      modifies this`children, this`machine
      ensures Valid() && machine == Run(old(machine), log) && machine.hist == old(machine.hist)
      ensures k <= 1 + 2 * |keys| && WellNamed(owner, old(children))
      ensures FirstApplied(owner, spec, old(children), children, k) && Clear(owner, spec, old(children), k, failAt)
      ensures k == 1 + 2 * |keys| ==> machine.phase == After(k) && names == NamesOf(owner, keys, k)
      ensures k < 1 + 2 * |keys| ==>
                && machine.phase == Failing(machine.cacheAt)
                && !Open(owner, spec, old(children), k, failAt) && (k == failAt || machine.refused)
    {
      var slots := BuilderList(keys);
      k, names, log := 0, [], [];
      while k < |slots|
        invariant 0 <= k <= |slots| == 1 + 2 * |keys| && Valid() && machine.phase == After(k)
        invariant machine == Run(old(machine), log) && machine.hist == old(machine.hist)
        invariant FirstApplied(owner, spec, old(children), children, k) && Clear(owner, spec, old(children), k, failAt)
        invariant names == NamesOf(owner, keys, k)
      {
        TurnNames(owner, spec, keys, k);
        ghost var e;
        var ok, queue;
        ok, queue, e := ApplyChild(k, failAt, old(children));
        RunThenStep(old(machine), log, e);
        log := log + [e];
        if !ok {
          return;
        }
        ClearMore(owner, spec, old(children), k, failAt);
        names := names + if slots[k].PartitionSlot? then [queue] else [];
        k := k + 1;
      }
    }

    /** A status write that the machine makes with event e; the cache catches up with it. */
    method StoreStatus(next: Status, ghost e: Event) returns (ghost log: seq<Event>)
      requires Valid() && var t := Step(machine, e);
               t == machine.(hist := machine.hist + [SuperStream(spec, generation, next)], phase := t.phase)
      modifies this`status, this`machine
      ensures Valid() && status == next && machine == Run(old(machine), log) && machine.refused == old(machine.refused)
      ensures var p := Step(old(machine), e).phase; machine.phase == p && machine.cacheAt == |old(machine).hist|
    {
      ghost var start := machine;
      RunThenStep(start, [], e);
      RunThenStep(start, [] + [e], CacheAdvances(|start.hist|));
      log := [] + [e] + [CacheAdvances(|start.hist|)];
      machine := Step(Step(machine, e), CacheAdvances(|start.hist|));
      SameChildren(owner, start, machine, children);
      status := next;
    }

    /** SetReconcileSuccess, with NotReady or with Ready. */
    method SetReconcileSuccess(ready: bool) returns (ghost log: seq<Event>)
      requires Valid()
      requires if ready then machine.phase == Saving(machine.cacheAt, true) && EffectiveKeys(spec).Some?
                             && status.partitions == QueueNames(owner, spec)
               else machine.phase == Failing(machine.cacheAt)
      modifies this`status, this`machine
      ensures Valid() && machine.phase.Idle? && machine == Run(old(machine), log) && machine.refused == old(machine.refused)
      ensures status == old(status).(ready := Some(ready), observed := generation)
    {
      var next := status.(ready := Some(ready), observed := generation);
      if ready {
        log := StoreStatus(next, Saves(Accepted));
      } else {
        log := StoreStatus(next, Fails(Accepted));
      }
    }

    /** Everything after the routing keys are known. */
    method Expand(keys: seq<string>, failAt: nat) returns (r: Result, ghost log: seq<Event>)
      requires Valid() && EffectiveKeys(spec) == Some(keys) && machine.phase == After(0)
      modifies this`children, this`status, this`machine
      ensures Valid() && machine.phase.Idle? && machine == Run(old(machine), log) && WellNamed(owner, old(children))
      ensures r.Reconciled? || (r.FailedAt? && r.k < 1 + 2 * |keys|)
      ensures FirstApplied(owner, spec, old(children), children, if r.FailedAt? then r.k else 1 + 2 * |keys|)
      ensures Clear(owner, spec, old(children), if r.FailedAt? then r.k else 1 + 2 * |keys|, failAt)
      ensures r.FailedAt? ==>
                && !Open(owner, spec, old(children), r.k, failAt) && (r.k == failAt || machine.refused)
                && status == old(status).(ready := Some(false), observed := generation)
      ensures r.Reconciled? ==> status == Status(QueueNames(owner, spec), Some(true), generation)
    {
      ghost var start := machine;
      var k, names;
      ghost var more;
      k, names, log := ApplyChildren(keys, failAt);
      if k < 1 + 2 * |keys| {
        more := SetReconcileSuccess(false);
        RunThenRun(start, log, more);
        return FailedAt(k), log + more;
      }
      assert names == QueueNames(owner, spec);
      more := StoreStatus(status.(partitions := names), Saves(Accepted));
      RunThenRun(start, log, more);
      log := log + more;
      more := SetReconcileSuccess(true);
      RunThenRun(start, log, more);
      return Reconciled, log + more;
    }

    /** The cluster was found and allowed, and no partition would be lost. */
    ghost predicate Usable(lookup: Lookup)
      reads this
    {
      spec.cluster.name != "" && lookup.ClusterFound? && |status.partitions| <= spec.partitions
    }

    /** Everything before the builders: an early end, or the routing keys. */
    method Prepare(lookup: Lookup) returns (early: Option<Result>, keys: seq<string>, ghost log: seq<Event>)
      requires Valid() && machine.phase.Idle?
      modifies this`status, this`machine
      ensures Valid() && machine == Run(old(machine), log) && machine.refused == old(machine.refused)
      ensures early.None? <==> old(Usable(lookup)) && EffectiveKeys(spec).Some?
      ensures early.None? ==> EffectiveKeys(spec) == Some(keys) && machine.phase == After(0) && status == old(status)
      ensures early.Some? ==> machine.phase.Idle?
      ensures early == Some(NoCluster) <==> lookup.ClusterMissing? || spec.cluster.name == ""
      ensures early == Some(NotAllowed) <==> spec.cluster.name != "" && lookup.ClusterForbidden?
      ensures early == Some(ScaledDown) <==>
                spec.cluster.name != "" && lookup.ClusterFound? && spec.partitions < |old(status).partitions|
      ensures early == Some(KeyMismatch) <==> old(Usable(lookup)) && EffectiveKeys(spec).None?
      ensures early.Some? ==> !early.value.FailedAt? && !early.value.Reconciled?
      ensures early.Some? ==> status == match early.value
                case NoCluster => old(status)
                case NotAllowed => old(status).(ready := Some(false))
                case _ => old(status).(ready := Some(false), observed := generation)
    {
      ghost var start := machine;
      RunThenStep(start, [], Begins(lookup));
      log := [] + [Begins(lookup)];
      machine := Step(machine, Begins(lookup));
      SameChildren(owner, start, machine, children);
      ghost var more := [];
      early, keys := None, spec.routingKeys;
      if lookup.ClusterMissing? || spec.cluster.name == "" {
        early := Some(NoCluster);
      } else if lookup.ClusterForbidden? {
        more := StoreStatus(status.(ready := Some(false)), Fails(Accepted));
        early := Some(NotAllowed);
      } else if spec.partitions < |status.partitions| {
        more := SetReconcileSuccess(false);
        early := Some(ScaledDown);
      } else if |spec.routingKeys| == 0 {
        keys := GenerateRoutingKeys(spec.partitions);
      } else if |spec.routingKeys| != spec.partitions {
        more := SetReconcileSuccess(false);
        early := Some(KeyMismatch);
      }
      RunThenRun(start, log, more);
      log := log + more;
    }

    /** Reconcile. On success the children are exactly the expansion of the spec, the status lists the
        streams in key order and Ready is stored; when a child cannot be written, exactly the
        children before it are, the list is untouched and NotReady is stored. Each result comes
        about in exactly one way. */
    method Reconcile(lookup: Lookup, failAt: nat) returns (r: Result, ghost log: seq<Event>)
      requires Valid() && machine.phase.Idle?
      modifies this`children, this`status, this`machine
      ensures Valid() && machine.phase.Idle? && machine == Run(old(machine), log) && WellNamed(owner, old(children))
      ensures r.NoCluster? <==> lookup.ClusterMissing? || spec.cluster.name == ""
      ensures r.NotAllowed? <==> spec.cluster.name != "" && lookup.ClusterForbidden?
      ensures r.ScaledDown? <==> spec.cluster.name != "" && lookup.ClusterFound? && spec.partitions < |old(status).partitions|
      ensures r.KeyMismatch? <==> old(Usable(lookup)) && EffectiveKeys(spec).None?
      ensures r.Reconciled? <==>
                && old(Usable(lookup)) && EffectiveKeys(spec).Some?
                && Clear(owner, spec, old(children), 1 + 2 * Size(spec), failAt)
      ensures r.FailedAt? ==>
                && r.k < 1 + 2 * Size(spec) && Clear(owner, spec, old(children), r.k, failAt)
                && !Open(owner, spec, old(children), r.k, failAt) && (r.k == failAt || machine.refused)
      ensures r.FailedAt? || r.Reconciled? ==>
                FirstApplied(owner, spec, old(children), children, if r.FailedAt? then r.k else 1 + 2 * Size(spec))
      ensures !r.FailedAt? && !r.Reconciled? ==> children == old(children)
      ensures status == match r
                case NoCluster => old(status)
                case NotAllowed => old(status).(ready := Some(false))
                case Reconciled => Status(QueueNames(owner, spec), Some(true), generation)
                case _ => old(status).(ready := Some(false), observed := generation)
    {
      var early, keys;
      early, keys, log := Prepare(lookup);
      if early.Some? {
        return early.value, log;
      }
      ghost var more;
      r, more := Expand(keys, failAt);
      RunThenRun(old(machine), log, more);
      log := log + more;
    }

    /** An update of the SuperStream, which its webhook accepts or not. */
    method Edit(next: SuperStreamSpec) returns (ghost log: seq<Event>)
      requires Valid() && machine.phase.Idle?
      modifies this`spec, this`generation, this`machine
      ensures Valid() && machine.phase.Idle? && machine == Run(old(machine), log)
      ensures spec == if SuperStreamUpdateAllowed(old(spec), next) then next else old(spec)
    {
      ghost var start := machine;
      log := [];
      if SuperStreamUpdateAllowed(spec, next) && next != spec {
        RunThenStep(start, [], UserUpdates(next));
        RunThenStep(start, [] + [UserUpdates(next)], CacheAdvances(|start.hist|));
        log := [] + [UserUpdates(next)] + [CacheAdvances(|start.hist|)];
        machine := Step(Step(machine, UserUpdates(next)), CacheAdvances(|start.hist|));
        SameChildren(owner, start, machine, children);
        spec, generation := next, generation + 1;
      }
    }

    /** With the webhooks on from the start, a child fails only because the API server failed its
        write, over any number of edits and reconciles. */
    method ReconcileForever(turns: seq<Turn>) returns (rs: seq<Result>)
      requires Valid() && machine.phase.Idle? && Adm(machine)
      modifies this
      ensures Valid() && machine.phase.Idle? && Adm(machine)
      ensures |rs| == |turns| && forall i :: 0 <= i < |rs| && rs[i].FailedAt? ==> rs[i].k == turns[i].failAt
    {
      rs := [];
      for i := 0 to |turns|
        invariant Valid() && machine.phase.Idle? && Adm(machine)
        invariant |rs| == i && forall j :: 0 <= j < i && rs[j].FailedAt? ==> rs[j].k == turns[j].failAt
      {
        var r := EditAndReconcile(turns[i]);
        rs := rs + [r];
      }
    }

    method EditAndReconcile(turn: Turn) returns (r: Result)
      requires Valid() && machine.phase.Idle? && Adm(machine)
      modifies this
      ensures Valid() && machine.phase.Idle? && Adm(machine)
      ensures r.FailedAt? ==> r.k == turn.failAt
    {
      ghost var before := machine;
      ghost var log := Edit(turn.edit);
      RunAdm(before, log);
      before := machine;
      r, log := Reconcile(turn.lookup, turn.failAt);
      RunAdm(before, log);
    }
  }
}
