/** User and vhost limits: read what the broker has, delete what the spec no longer sets, put what it
    sets. Each of these calls is several requests, so a failed one may have done any part of it. */
module Limits {
  import opened Types

  type LimitMap = map<string, int>

  const USER_KEYS := ["max-connections", "max-channels"]
  const VHOST_KEYS := ["max-connections", "max-queues"]

  /** What a reconcile is to establish: the managed keys as in the spec, all others as they were. */
  function Target(was: LimitMap, keys: seq<string>, wanted: LimitMap): LimitMap {
    (map k | k in was && k !in keys :: was[k]) + wanted
  }

  /** The wanted limits a put call wrote. */
  function Part(wanted: LimitMap, part: set<string>): LimitMap {
    map k | k in wanted && k in part :: wanted[k]
  }

  /** Deleting managed limits the spec does not set does not move the target. */
  lemma TargetAfterDelete(was: LimitMap, keys: seq<string>, wanted: LimitMap, gone: set<string>)
    requires forall k :: k in gone ==> k in keys && k !in wanted
    ensures Target(was - gone, keys, wanted) == Target(was, keys, wanted)
  {
    assert (map k | k in (was - gone) && k !in keys :: (was - gone)[k]) == map k | k in was && k !in keys :: was[k];
  }

  /** Nor does writing some of the wanted limits. */
  lemma TargetAfterPut(was: LimitMap, keys: seq<string>, wanted: LimitMap, part: set<string>)
    requires forall k :: k in wanted ==> k in keys
    ensures Target(was + Part(wanted, part), keys, wanted) == Target(was, keys, wanted)
  {
    var now := was + Part(wanted, part);
    assert (map k | k in now && k !in keys :: now[k]) == map k | k in was && k !in keys :: was[k];
  }

  /** With no outdated limit left, writing the wanted ones reaches the target. */
  lemma TargetReached(was: LimitMap, keys: seq<string>, wanted: LimitMap)
    requires forall k :: k in was && k in keys ==> k in wanted
    requires forall k :: k in wanted ==> k in keys
    ensures was + wanted == Target(was, keys, wanted)
  {
  }

  lemma TargetIsSettled(was: LimitMap, keys: seq<string>, wanted: LimitMap, part: set<string>)
    requires was == Target(was, keys, wanted)
    ensures forall k :: k in was && k in keys ==> k in wanted
    ensures was + Part(wanted, part) == was
  {
  }

  /** GenerateUserLimits and GenerateVhostLimits: a map of the limits that are set. */
  method GenerateLimits(connections: Option<int>, other: Option<int>, keys: seq<string>) returns (m: LimitMap)
    requires |keys| == 2 && keys[0] != keys[1]
    ensures keys[0] in m <==> connections.Some?
    ensures keys[1] in m <==> other.Some?
    ensures connections.Some? ==> m[keys[0]] == connections.value
    ensures other.Some? ==> m[keys[1]] == other.value
    ensures m.Keys <= {keys[0], keys[1]}
  {
    m := map[];
    if connections.Some? { m := m[keys[0] := connections.value]; }
    if other.Some? { m := m[keys[1] := other.value]; }
  }

  /** userLimitsToDelete and vhostLimitsToDelete. */
  method LimitsToDelete(keys: seq<string>, existing: LimitMap, wanted: LimitMap) returns (gone: seq<string>)
    ensures forall k :: k in gone <==> k in keys && k in existing && k !in wanted
  {
    gone := [];
    for i := 0 to |keys|
      invariant forall k :: k in gone <==> k in keys[..i] && k in existing && k !in wanted
    {
      assert keys[..i+1] == keys[..i] + [keys[i]];
      if keys[i] in existing && keys[i] !in wanted {
        gone := gone + [keys[i]];
      }
    }
    assert keys[..|keys|] == keys;
  }

  /** A call that succeeded, or failed after doing its part for some of the limits. A deletion
      answered 404 counts as a success: the limits are absent. */
  datatype Call = Done | Failed(part: set<string>)

  /** How the calls of a reconcile turn out; the operator may also stop before any of them. */
  datatype Script = Script(readable: bool, stopAfterGet: bool, deletion: Call, stopAfterDelete: bool, put: Call)

  function Written(wanted: LimitMap, call: Call): LimitMap {
    if call.Done? then wanted else Part(wanted, call.part)
  }

  lemma WrittenKeepsTarget(was: LimitMap, keys: seq<string>, wanted: LimitMap, call: Call)
    requires forall k :: k in wanted ==> k in keys
    requires forall k :: k in was && k in keys ==> k in wanted
    ensures call.Done? ==> was + Written(wanted, call) == Target(was, keys, wanted)
    ensures Target(was + Written(wanted, call), keys, wanted) == Target(was, keys, wanted)
    ensures was == Target(was, keys, wanted) ==> was + Written(wanted, call) == was
  {
    var part := if call.Done? then wanted.Keys else call.part;
    assert Written(wanted, call) == Part(wanted, part);
    TargetReached(was, keys, wanted);
    TargetAfterPut(was, keys, wanted, part);
    if was == Target(was, keys, wanted) { TargetIsSettled(was, keys, wanted, part); }
  }

  predicate Undisturbed(sc: Script) {
    sc.readable && !sc.stopAfterGet && sc.deletion.Done? && !sc.stopAfterDelete && sc.put.Done?
  }

  class LimitsReconciler {
    var limits: LimitMap

    method DeleteLimits(gone: seq<string>, call: Call)
      modifies this
      ensures limits == old(limits) - (set k | k in gone && (call.Done? || k in call.part))
    {
      limits := limits - (set k | k in gone && (call.Done? || k in call.part));
    }

    method PutLimits(wanted: LimitMap, call: Call)
      modifies this
      ensures limits == old(limits) + Written(wanted, call)
    {
      limits := limits + Written(wanted, call);
    }

    /** reconcileUserLimits. Success establishes the target; a run stopped or failing anywhere leaves
        the target within reach, because it is the same as before; and nothing changes once it
        is established. */
    method Reconcile(keys: seq<string>, wanted: LimitMap, sc: Script) returns (ok: bool)
      requires forall k :: k in wanted ==> k in keys
      modifies this
      ensures ok ==> limits == Target(old(limits), keys, wanted)
      ensures Target(limits, keys, wanted) == Target(old(limits), keys, wanted)
      ensures old(limits) == Target(old(limits), keys, wanted) ==> limits == old(limits)
      ensures Undisturbed(sc) ==> ok
    {
      if !sc.readable || sc.stopAfterGet { return false; }
      var existing := limits;
      var gone := LimitsToDelete(keys, existing, wanted);
      if existing == Target(existing, keys, wanted) {
        TargetIsSettled(existing, keys, wanted, {});
      }
      if |gone| > 0 {
        assert gone[0] in gone;
        TargetAfterDelete(existing, keys, wanted, set k | k in gone && (sc.deletion.Done? || k in sc.deletion.part));
        DeleteLimits(gone, sc.deletion);
        if !sc.deletion.Done? { return false; }
      }
      if sc.stopAfterDelete { return false; }
      ok := PutWanted(keys, wanted, sc.put);
    }

    /** The last call, when no outdated limit is left. */
    method PutWanted(keys: seq<string>, wanted: LimitMap, call: Call) returns (ok: bool)
      requires forall k :: k in wanted ==> k in keys
      requires forall k :: k in limits && k in keys ==> k in wanted
      modifies this
      ensures ok ==> limits == Target(old(limits), keys, wanted)
      ensures Target(limits, keys, wanted) == Target(old(limits), keys, wanted)
      ensures old(limits) == Target(old(limits), keys, wanted) ==> limits == old(limits)
      ensures call.Done? ==> ok
    {
      WrittenKeepsTarget(limits, keys, wanted, call);
      if |wanted| > 0 {
        PutLimits(wanted, call);
        return call.Done?;
      }
      WrittenKeepsTarget(limits, keys, wanted, Done);
      assert limits + wanted == limits;
      ok := true;
    }

    /** Limits converge: after any number of interrupted and failed runs, the first that succeeds
        leaves what a single undisturbed run on the original limits would have left. */
    method Converge(keys: seq<string>, wanted: LimitMap, scripts: seq<Script>) returns (ok: bool)
      requires forall k :: k in wanted ==> k in keys
      modifies this
      ensures ok ==> limits == Target(old(limits), keys, wanted)
      ensures Target(limits, keys, wanted) == Target(old(limits), keys, wanted)
      ensures (exists i :: 0 <= i < |scripts| && Undisturbed(scripts[i])) ==> ok
    {
      ok := false;
      var i := 0;
      while i < |scripts| && !ok
        invariant Target(limits, keys, wanted) == Target(old(limits), keys, wanted)
        invariant ok ==> limits == Target(old(limits), keys, wanted)
        invariant 0 <= i <= |scripts| && (!ok ==> forall j :: 0 <= j < i ==> !Undisturbed(scripts[j]))
        decreases |scripts| - i
      {
        ok := Reconcile(keys, wanted, scripts[i]);
        i := i + 1;
      }
    }

    /** The limits are as the spec of a User or Vhost sets them, under these two keys. */
    static predicate AsSet(limits: LimitMap, key: string, value: Option<int>) {
      (key in limits <==> value.Some?) && (value.Some? ==> limits[key] == value.value)
    }

    /** GenerateUserLimits and reconcileUserLimits together. */
    method ReconcileUser(connections: Option<int>, channels: Option<int>, sc: Script) returns (ok: bool)
      modifies this
      ensures ok ==> AsSet(limits, "max-connections", connections) && AsSet(limits, "max-channels", channels)
      ensures Undisturbed(sc) ==> ok
      ensures forall k :: k !in ["max-connections", "max-channels"] ==> (k in limits <==> k in old(limits)) && (k in limits ==> limits[k] == old(limits)[k])
    {
      ok := ReconcileKeys(USER_KEYS, connections, channels, sc);
    }

    /** The same of a Vhost. */
    method ReconcileVhost(connections: Option<int>, queues: Option<int>, sc: Script) returns (ok: bool)
      modifies this
      ensures ok ==> AsSet(limits, "max-connections", connections) && AsSet(limits, "max-queues", queues)
      ensures Undisturbed(sc) ==> ok
      ensures forall k :: k !in ["max-connections", "max-queues"] ==> (k in limits <==> k in old(limits)) && (k in limits ==> limits[k] == old(limits)[k])
    {
      ok := ReconcileKeys(VHOST_KEYS, connections, queues, sc);
    }

    method ReconcileKeys(keys: seq<string>, connections: Option<int>, other: Option<int>, sc: Script) returns (ok: bool)
      requires |keys| == 2 && keys[0] != keys[1]
      modifies this
      ensures ok ==> AsSet(limits, keys[0], connections) && AsSet(limits, keys[1], other)
      ensures Undisturbed(sc) ==> ok
      ensures forall k :: k !in keys ==> (k in limits <==> k in old(limits)) && (k in limits ==> limits[k] == old(limits)[k])
    {
      var wanted := GenerateLimits(connections, other, keys);
      ok := Reconcile(keys, wanted, sc);
      SameTargetSameOthers(old(limits), limits, keys, wanted);
    }
  }

  /** Maps with one target agree on the keys that are not managed. */
  lemma SameTargetSameOthers(a: LimitMap, b: LimitMap, keys: seq<string>, wanted: LimitMap)
    requires Target(a, keys, wanted) == Target(b, keys, wanted) && forall k :: k in wanted ==> k in keys
    ensures forall k :: k !in keys ==> (k in a <==> k in b) && (k in a ==> a[k] == b[k])
  {
    var t := Target(a, keys, wanted);
    forall k | k !in keys ensures (k in a <==> k in b) && (k in a ==> a[k] == b[k]) {
      assert k in t <==> k in a;
      assert k in Target(b, keys, wanted) <==> k in b;
    }
  }
}
