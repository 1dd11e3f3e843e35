/** `TopologyReconciler.Reconcile` as the sequential program it is, working on the three stores in
    place. Other writers move the stores between any two of its calls, and it may be stopped
    before any call. Every run of it, however disturbed, is a run of the protocol's state machine,
    so what FinalizerProtocol proves of all runs holds of this program. */
module TopologyReconciling {
  import opened Types
  import opened Admission
  import opened FinalizerProtocol

  /** What others do before a call, and whether the operator dies before making it. */
  datatype Slot = Slot(others: seq<Event>, stopped: bool)

  /** How the calls of one reconcile turn out. */
  datatype Script = Script(
    atResolve: Slot, resolution: Resolution, clientFails: bool,
    atProbe: Slot, probe: Probe, atDelete: Slot, deletion: Call, atRelease: Slot, release: Write,
    atRegister: Slot, registration: Write, atDeclare: Slot, declaration: Call,
    atReport: Slot, report: Write)

  predicate ByOthers(e: Event) {
    e.CacheAdvances? || e.UserCreates? || e.UserUpdates? || e.UserTouches? || e.UserDeletes? || e.BrokerForgets?
  }

  /** Nothing happens before the call. */
  predicate Quiet(slot: Slot) {
    slot.others == [] && !slot.stopped
  }

  predicate Outside(slot: Slot) {
    forall e :: e in slot.others ==> ByOthers(e)
  }

  /** Nothing happens in between and every call does what it should. */
  predicate Smooth(sc: Script) {
    && Quiet(sc.atResolve) && Quiet(sc.atProbe) && Quiet(sc.atDelete) && Quiet(sc.atRelease)
    && Quiet(sc.atRegister) && Quiet(sc.atDeclare) && Quiet(sc.atReport)
    && !sc.clientFails && sc.probe.Found? && sc.deletion.Done? && sc.release.Stored?
    && sc.registration.Stored? && sc.declaration.Done? && sc.report.Stored?
  }

  predicate Disturbed(sc: Script) {
    && Outside(sc.atResolve) && Outside(sc.atProbe) && Outside(sc.atDelete) && Outside(sc.atRelease)
    && Outside(sc.atRegister) && Outside(sc.atDeclare) && Outside(sc.atReport)
  }

  /** Others do not see, and do not move, the reconcile. */
  lemma OthersKeepPhase(s: State, p: Phase, e: Event)
    requires Well(s) && ByOthers(e)
    ensures var t := Step(s, e);
            && Step(s.(phase := p), e) == t.(phase := p)
            && t.phase == s.phase && t.released == s.released && t.declared == s.declared
  {
  }

  class TopologyReconciler {
    var hist: seq<Snapshot>
    var cacheAt: nat
    var broker: map<Coordinates, nat>
    var released: map<nat, Release>
    var declared: set<nat>

    constructor ()
      ensures At(Idle) == INIT
    {
      hist, cacheAt, broker, released, declared := [Absent(0)], 0, map[], map[], {};
    }

    /** The stores as a state of the protocol in a given phase. */
    ghost function At(p: Phase): State
      reads this
    {
      State(hist, cacheAt, broker, released, declared, p)
    }

    ghost predicate Valid()
      reads this
    {
      |hist| > 0 && cacheAt < |hist|
    }

    /** A reconcile that returns no error left a marked object without the finalizer. */
    static ghost predicate FinalizerLeft(o: Object, hist: seq<Snapshot>) {
      !o.finalizer || Settle(o.(finalizer := false)) in hist
    }

    /** A reconcile that returns no error declared the spec it read. */
    static ghost predicate Declared(o: Object, hist: seq<Snapshot>, declared: set<nat>) {
      exists d :: d in declared && Copy(hist, d) && hist[d].obj.uid == o.uid && hist[d].obj.spec == o.spec
    }

    /** One thing others do. */
    method Intervene(e: Event, ghost p: Phase)
      requires Valid() && ByOthers(e)
      modifies this`hist, this`cacheAt, this`broker
      ensures Valid() && At(p) == Step(old(At(p)), e) && old(hist) <= hist
    {
      var s := State(hist, cacheAt, broker, released, declared, Idle);
      var t := Step(s, e);
      OthersKeepPhase(s, p, e);
      hist, cacheAt, broker := t.hist, t.cacheAt, t.broker;
    }

    /** Others act; the reconcile stays where it is. */
    method Others(es: seq<Event>, ghost p: Phase)
      requires Valid() && forall e :: e in es ==> ByOthers(e)
      modifies this`hist, this`cacheAt, this`broker
      ensures Valid() && At(p) == Run(old(At(p)), es) && old(hist) <= hist
    {
      assert es[..0] == [];
      for k := 0 to |es|
        invariant Valid() && At(p) == Run(old(At(p)), es[..k]) && old(hist) <= hist
      {
        assert es[k] in es && es[..k] + [es[k]] == es[..k+1];
        RunThenStep(old(At(p)), es[..k], es[k]);
        Intervene(es[k], p);
      }
      assert es[..|es|] == es;
    }

    /** An update of version `at`: stale versions conflict, an unchanged object is not stored. */
    method Update(at: nat, next: Snapshot, write: Write) returns (stored: bool)
      requires Valid() && Copy(hist, at)
      modifies this`hist
      ensures stored <==> !write.Rejected? && Current(old(hist), at) && next != old(hist)[at]
      ensures hist == if stored then old(hist) + [next] else old(hist)
    {
      stored := !write.Rejected? && at + 1 == |hist| && next != hist[at];
      if stored {
        hist := hist + [next];
      }
    }

    /** removeFinalizer. */
    method RemoveFinalizer(at: nat, why: Why, sc: Script) returns (err: bool, ghost log: seq<Event>)
      requires Valid() && Disturbed(sc) && Copy(hist, at)
      modifies this
      ensures Valid() && At(Idle) == Run(old(At(Releasing(at, why))), log)
      ensures !err ==> FinalizerLeft(old(hist[at].obj), hist)
      ensures Smooth(sc) && Current(old(hist), at) ==> !err
    {
      Others(sc.atRelease.others, Releasing(at, why));
      log := sc.atRelease.others;
      ghost var start := old(At(Releasing(at, why)));
      if sc.atRelease.stopped {
        RunThenStep(start, log, Crash);
        return true, log + [Crash];
      }
      var o := hist[at].obj;
      err := at + 1 != |hist| || !sc.release.Stored?;
      RunThenStep(start, log, Releases(sc.release));
      log := log + [Releases(sc.release)];
      var stored := Update(at, Settle(o.(finalizer := false)), if o.finalizer then sc.release else Rejected);
      if stored && !why.Deleted? {
        released := released[o.uid := Release(why, at)];
      }
    }

    /** statusUpdate after DeclareFunc, or after a reference that could not be used. */
    method ReportStatus(at: nat, ready: bool, sc: Script) returns (ghost log: seq<Event>)
      requires Valid() && Disturbed(sc) && Copy(hist, at)
      modifies this`hist, this`cacheAt, this`broker
      ensures Valid() && At(Idle) == Run(old(At(Reporting(at, ready))), log)
      ensures old(hist) <= hist
      ensures Quiet(sc.atReport) && sc.report.Stored? && Current(old(hist), at) ==>
                var o := old(hist[at].obj);
                Last(hist) == Present(o.(status := if ready then Status(o.generation, Some(true))
                                                   else Status(o.status.observed, Some(false))))
    {
      Others(sc.atReport.others, Reporting(at, ready));
      log := sc.atReport.others;
      ghost var start := old(At(Reporting(at, ready)));
      if sc.atReport.stopped {
        RunThenStep(start, log, Crash);
        return log + [Crash];
      }
      var o := hist[at].obj;
      RunThenStep(start, log, Reports(sc.report));
      log := log + [Reports(sc.report)];
      var _ := Update(at, Present(o.(status := ReportedStatus(o, ready))), sc.report);
    }

    /** What DeleteFunc reads before it deletes. */
    method ProbeFirst(at: nat, sc: Script) returns (probe: Probe, ghost log: seq<Event>)
      requires Valid() && Disturbed(sc) && Copy(hist, at)
      modifies this
      ensures Valid() && Copy(hist, at) && hist[at] == old(hist[at])
      ensures At(match probe case Found => Deleting(at)
                             case FoundNothing => Releasing(at, Deleted)
                             case _ => Idle)
              == Run(old(At(Probing(at))), log)
      ensures Smooth(sc) ==>
                && hist == old(hist) && broker == old(broker)
                && probe == if CoordinatesOf(hist[at].obj.spec) in broker then Found
                            else if hist[at].obj.spec.BindingResource? then FoundNothing else Unreadable
    {
      ghost var start := At(Probing(at));
      Others(sc.atProbe.others, Probing(at));
      log := sc.atProbe.others;
      if sc.atProbe.stopped {
        RunThenStep(start, log, Crash);
        return Unreadable, log + [Crash];
      }
      var o := hist[at].obj;
      var there := CoordinatesOf(o.spec) in broker;
      probe := match sc.probe
        case Found => if there then Found else if o.spec.BindingResource? then FoundNothing else Unreadable
        case FoundNothing => if !there && o.spec.BindingResource? then FoundNothing else Unreadable
        case other => other;
      RunThenStep(start, log, Probes(probe));
      log := log + [Probes(probe)];
    }

    /** The deletion itself; 404 counts as done. */
    method DeleteInBroker(at: nat, sc: Script) returns (done: bool, ghost log: seq<Event>)
      requires Valid() && Disturbed(sc) && Copy(hist, at)
      modifies this
      ensures Valid() && Copy(hist, at) && hist[at] == old(hist[at])
      ensures At(if done then Releasing(at, Deleted) else Idle) == Run(old(At(Deleting(at))), log)
      ensures Smooth(sc) ==> hist == old(hist) && done
    {
      ghost var start := At(Deleting(at));
      Others(sc.atDelete.others, Deleting(at));
      log := sc.atDelete.others;
      if sc.atDelete.stopped {
        RunThenStep(start, log, Crash);
        return false, log + [Crash];
      }
      RunThenStep(start, log, Deletes(sc.deletion));
      log := log + [Deletes(sc.deletion)];
      if !sc.deletion.Refused? {
        broker := broker - {CoordinatesOf(hist[at].obj.spec)};
      }
      done := sc.deletion.Done?;
    }

    /** DeleteFunc: done is true when it returned nil. */
    method DeleteFunc(at: nat, sc: Script) returns (done: bool, ghost log: seq<Event>)
      requires Valid() && Disturbed(sc) && Copy(hist, at) && hist[at].obj.marked
      modifies this
      ensures Valid() && Copy(hist, at) && hist[at] == old(hist[at])
      ensures At(if done then Releasing(at, if Retains(hist[at].obj.spec) then Retained else Deleted) else Idle)
              == Run(old(At(AfterResolution(hist[at].obj, at, Resolved))), log)
      ensures Smooth(sc) ==>
                && hist == old(hist)
                && (done <==> Retains(hist[at].obj.spec) || !InspectedAndGone(hist[at].obj.spec, old(broker)))
    {
      ghost var start := At(AfterResolution(hist[at].obj, at, Resolved));
      ghost var probed: seq<Event> := [];
      if Retains(hist[at].obj.spec) {
        return true, [];
      }
      if NeedsProbe(hist[at].obj.spec) {
        var probe;
        probe, probed := ProbeFirst(at, sc);
        if !probe.Found? {
          return probe.FoundNothing?, probed;
        }
      }
      done, log := DeleteInBroker(at, sc);
      RunThenRun(start, probed, log);
      log := probed + log;
    }

    /** The whole of a marked object's reconcile once its cluster is known. */
    method Delete(at: nat, sc: Script) returns (err: bool, ghost log: seq<Event>)
      requires Valid() && Disturbed(sc) && Copy(hist, at) && hist[at].obj.marked
      modifies this
      ensures Valid() && At(Idle) == Run(old(At(AfterResolution(hist[at].obj, at, Resolved))), log)
      ensures !err ==> FinalizerLeft(old(hist[at].obj), hist)
      ensures Smooth(sc) && Current(old(hist), at) ==>
                (err <==> !Retains(old(hist[at].obj.spec)) && InspectedAndGone(old(hist[at].obj.spec), old(broker)))
    {
      ghost var start := At(AfterResolution(hist[at].obj, at, Resolved));
      var done;
      done, log := DeleteFunc(at, sc);
      if !done {
        return true, log;
      }
      ghost var soFar := log;
      err, log := RemoveFinalizer(at, if Retains(hist[at].obj.spec) then Retained else Deleted, sc);
      RunThenRun(start, soFar, log);
      log := soFar + log;
    }

    /** DeclareFunc's broker call. */
    method DeclareInBroker(at: nat, sc: Script) returns (stopped: bool, ghost log: seq<Event>)
      requires Valid() && Disturbed(sc) && Copy(hist, at)
      modifies this
      ensures Valid() && Copy(hist, at) && hist[at] == old(hist[at])
      ensures At(if stopped then Idle else Reporting(at, sc.declaration.Done?)) == Run(old(At(Declaring(at))), log)
      ensures !stopped && sc.declaration.Done? ==> at in declared
      ensures Quiet(sc.atDeclare) ==> !stopped && hist == old(hist)
    {
      ghost var start := At(Declaring(at));
      Others(sc.atDeclare.others, Declaring(at));
      log := sc.atDeclare.others;
      if sc.atDeclare.stopped {
        RunThenStep(start, log, Crash);
        return true, log + [Crash];
      }
      RunThenStep(start, log, Declares(sc.declaration));
      log := log + [Declares(sc.declaration)];
      if !sc.declaration.Refused? {
        broker := broker[CoordinatesOf(hist[at].obj.spec) := hist[at].obj.uid];
      }
      if sc.declaration.Done? {
        declared := declared + {at};
      }
      stopped := false;
    }

    /** DeclareFunc and the status write that follows it, of an object with the finalizer. */
    method Declare(at: nat, sc: Script) returns (err: bool, ghost log: seq<Event>)
      requires Valid() && Disturbed(sc) && Copy(hist, at) && hist[at].obj.finalizer
      modifies this
      ensures Valid() && At(Idle) == Run(old(At(Declaring(at))), log)
      ensures !err ==> Declared(old(hist[at].obj), hist, declared)
      ensures Quiet(sc.atDeclare) && Quiet(sc.atReport) ==> (err <==> !sc.declaration.Done?)
      ensures Quiet(sc.atDeclare) && Quiet(sc.atReport) && sc.report.Stored? && Current(old(hist), at) ==>
                var o := old(hist[at].obj);
                Last(hist) == Present(o.(status := if sc.declaration.Done? then Status(o.generation, Some(true))
                                                   else Status(o.status.observed, Some(false))))
    {
      ghost var start := At(Declaring(at));
      var stopped;
      stopped, log := DeclareInBroker(at, sc);
      if stopped {
        return true, log;
      }
      err := !sc.declaration.Done?;
      ghost var soFar := log;
      log := ReportStatus(at, sc.declaration.Done?, sc);
      RunThenRun(start, soFar, log);
      log := soFar + log;
    }

    /** addFinalizerIfNeeded, for an object without the finalizer. */
    method AddFinalizer(at: nat, sc: Script) returns (added: bool, ghost log: seq<Event>)
      requires Valid() && Disturbed(sc) && Copy(hist, at) && !hist[at].obj.finalizer
      modifies this`hist, this`cacheAt, this`broker
      ensures Valid() && At(if added then Declaring(|hist| - 1) else Idle) == Run(old(At(Registering(at))), log)
      ensures added ==> Last(hist) == Present(old(hist[at].obj).(finalizer := true))
      ensures Smooth(sc) && Current(old(hist), at) ==> added
    {
      ghost var start := At(Registering(at));
      Others(sc.atRegister.others, Registering(at));
      log := sc.atRegister.others;
      if sc.atRegister.stopped {
        RunThenStep(start, log, Crash);
        return false, log + [Crash];
      }
      RunThenStep(start, log, Registers(sc.registration));
      log := log + [Registers(sc.registration)];
      var stored := Update(at, Present(hist[at].obj.(finalizer := true)), sc.registration);
      added := stored && sc.registration.Stored?;
    }

    /** An unregistered object: nothing is declared unless the finalizer was stored first. */
    method Register(at: nat, sc: Script) returns (err: bool, ghost log: seq<Event>)
      requires Valid() && Disturbed(sc) && Copy(hist, at) && !hist[at].obj.finalizer
      modifies this
      ensures Valid() && At(Idle) == Run(old(At(Registering(at))), log)
      ensures !err ==> Declared(old(hist[at].obj), hist, declared)
      ensures Smooth(sc) && Current(old(hist), at) ==> !err
    {
      ghost var start := At(Registering(at));
      var added;
      added, log := AddFinalizer(at, sc);
      if !added {
        return true, log;
      }
      ghost var soFar := log;
      err, log := Declare(|hist| - 1, sc);
      RunThenRun(start, soFar, log);
      log := soFar + log;
    }

    /** handleRMQReferenceParseError. */
    method HandleParseError(at: nat, sc: Script) returns (err: bool, ghost log: seq<Event>)
      requires Valid() && Disturbed(sc) && Copy(hist, at) && sc.resolution != Resolved
      modifies this
      ensures Valid() && At(Idle) == Run(old(At(AfterResolution(hist[at].obj, at, sc.resolution))), log)
      ensures !err ==> var o := old(hist[at].obj);
                       || (o.marked && FinalizerLeft(o, hist))
                       || (sc.resolution.AtZero? && !o.marked) || sc.resolution.NotAllowed?
      ensures var o := old(hist[at].obj);
              && (sc.resolution.NotAllowed? || (sc.resolution.AtZero? && !o.marked) ==> !err)
              && (sc.resolution.OtherError? || (sc.resolution.NoSuchCluster? && !o.marked) ==> err)
              && (Quiet(sc.atReport) && sc.report.Stored? && Current(old(hist), at)
                  && (sc.resolution.NotAllowed? || sc.resolution.OtherError? || (sc.resolution.AtZero? && !o.marked)) ==>
                    Last(hist) == Present(o.(status := Status(o.status.observed, Some(false)))))
    {
      log := [];
      if sc.resolution.NoSuchCluster? && hist[at].obj.marked {
        err, log := RemoveFinalizer(at, ClusterMissing, sc);
      } else if sc.resolution.NoSuchCluster? {
        err := true;
      } else if sc.resolution.AtZero? && hist[at].obj.marked {
        err, log := RemoveFinalizer(at, ScaledToZero, sc);
      } else {
        log := ReportStatus(at, false, sc);
        err := sc.resolution.OtherError?;
      }
    }

    /** The part of Reconcile after ParseReference. */
    method Act(at: nat, sc: Script) returns (err: bool, ghost log: seq<Event>)
      requires Valid() && Disturbed(sc) && Copy(hist, at)
      modifies this
      ensures Valid() && At(Idle) == Run(old(At(AfterResolution(hist[at].obj, at, sc.resolution))), log)
      ensures !err ==> var o := old(hist[at].obj);
                       || (o.marked && FinalizerLeft(o, hist))
                       || (!o.marked && Declared(o, hist, declared))
                       || (sc.resolution.AtZero? && !o.marked) || sc.resolution.NotAllowed?
      ensures Smooth(sc) && Current(old(hist), at) && sc.resolution.Resolved? ==>
                var o := old(hist[at].obj); (err <==> o.marked && !Retains(o.spec) && InspectedAndGone(o.spec, old(broker)))
    {
      if sc.resolution != Resolved {
        err, log := HandleParseError(at, sc);
      } else if hist[at].obj.marked {
        err, log := Delete(at, sc);
      } else if !hist[at].obj.finalizer {
        err, log := Register(at, sc);
      } else {
        err, log := Declare(at, sc);
      }
    }

    /** Get, ParseReference and the client factory. */
    method ReadAndResolve(sc: Script) returns (proceed: bool, err: bool, at: nat, ghost log: seq<Event>)
      requires Valid() && Disturbed(sc)
      modifies this`hist, this`cacheAt, this`broker
      ensures Valid() && at == old(cacheAt)
      ensures proceed ==> Copy(hist, at) && hist[at] == old(hist[at])
      ensures At(if proceed then AfterResolution(hist[at].obj, at, sc.resolution) else Idle) == Run(old(At(Idle)), log)
      ensures !proceed && !err ==> old(hist[cacheAt]).Absent?
      ensures Smooth(sc) ==> hist == old(hist) && broker == old(broker) && !err && (proceed <==> old(hist[cacheAt]).Present?)
    {
      ghost var start := At(Idle);
      at := cacheAt;
      RunThenStep(start, [], Reads);
      if hist[at].Absent? {
        return false, false, at, [] + [Reads];
      }
      Others(sc.atResolve.others, Resolving(at));
      log := [] + [Reads];
      RunThenRun(start, log, sc.atResolve.others);
      log := log + sc.atResolve.others;
      if sc.atResolve.stopped || (sc.resolution.Resolved? && sc.clientFails) {
        RunThenStep(start, log, Crash);
        return false, true, at, log + [Crash];
      }
      RunThenStep(start, log, Resolves(sc.resolution));
      return true, false, at, log + [Resolves(sc.resolution)];
    }

    /** One reconcile. Whatever happens around it, it is a run of the protocol; and when it returns
        no error, so that nothing retries it, the work on the version it read is done or it waits
        for its cluster to change. */
    method Reconcile(sc: Script) returns (err: bool, ghost log: seq<Event>)
      requires Valid() && Disturbed(sc)
      modifies this
      ensures Valid() && At(Idle) == Run(old(At(Idle)), log)
      ensures !err && old(hist[cacheAt]).Present? ==>
                var o := old(hist[cacheAt].obj);
                || (o.marked && FinalizerLeft(o, hist))
                || (!o.marked && Declared(o, hist, declared))
                || (sc.resolution.AtZero? && !o.marked) || sc.resolution.NotAllowed?
      ensures Smooth(sc) && sc.resolution.Resolved? && Current(old(hist), old(cacheAt)) && old(hist[cacheAt]).Present? ==>
                var o := old(hist[cacheAt].obj); (err <==> o.marked && !Retains(o.spec) && InspectedAndGone(o.spec, old(broker)))
    {
      ghost var start := At(Idle);
      var proceed, at;
      proceed, err, at, log := ReadAndResolve(sc);
      if proceed {
        ghost var soFar := log;
        err, log := Act(at, sc);
        RunThenRun(start, soFar, log);
        log := soFar + log;
      }
    }

    /** Any number of reconciles keep the invariant, so nothing leaks behind this program. */
    method ReconcileForever(scripts: seq<Script>)
      requires Valid() && Inv(At(Idle)) && forall sc :: sc in scripts ==> Disturbed(sc)
      modifies this
      ensures Valid() && Inv(At(Idle))
      ensures forall c :: c in broker ==> broker[c] in released || Held(hist, broker[c])
    {
      for k := 0 to |scripts|
        invariant Valid() && Inv(At(Idle))
      {
        ghost var before := At(Idle);
        ghost var log;
        var err;
        err, log := Reconcile(scripts[k]);
        RunKeeps(before, log);
      }
    }
  }
}
