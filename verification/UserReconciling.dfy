/** The User's reconcile as the sequential program it is, working on the stores in place, with
    others acting between its calls. Every run of it is a run of the machine in UserCredentials. */
module UserReconciling {
  import opened Types
  import opened UserCredentials

  /** What others do before a call, and whether the operator dies before making it. */
  datatype Slot = Slot(others: seq<Event>, stopped: bool)

  datatype Attempt = Attempt(slot: Slot, write: Write)

  /** How the calls of one reconcile turn out; `username` and `password` are those it would generate. */
  datatype Script = Script(
    atResolve: Slot, resolution: Resolution,
    atRegister: Slot, registration: Write,
    username: string, password: string, attempts: seq<Attempt>,
    atFetch: Slot, fetchFails: bool, atRecord: Slot, recording: Write, atPut: Slot, put: Call,
    atLimits: Slot, limits: bool, atReport: Slot, report: Write,
    atDelete: Slot, deletion: Call, atRelease: Slot, release: Write)

  predicate Outside(slot: Slot) {
    forall e :: e in slot.others ==> ByOthers(e) && !e.Crash?
  }

  /** Nothing happens before the call. */
  predicate Quiet(slot: Slot) {
    slot.others == [] && !slot.stopped
  }

  /** Nothing happens in between and every call does what it should. */
  predicate Smooth(sc: Script) {
    && Quiet(sc.atResolve) && Quiet(sc.atRegister) && Quiet(sc.atFetch) && Quiet(sc.atRecord) && Quiet(sc.atPut)
    && Quiet(sc.atLimits) && Quiet(sc.atReport) && Quiet(sc.atDelete) && Quiet(sc.atRelease)
    && |sc.attempts| > 0 && Quiet(sc.attempts[0].slot) && sc.attempts[0].write.Stored?
    && sc.registration.Stored? && !sc.fetchFails && sc.recording.Stored? && sc.put.Done? && sc.limits && sc.report.Stored?
    && sc.deletion.Done? && sc.release.Stored?
  }

  /** A secret that serves this User as it is. */
  predicate Serves(meta: string, o: User, v: SecretVersion) {
    && v.SecretStored? && v.labelled && v.data.username.Some? && v.data.username.value != ""
    && (v.data.hash.Some? || (v.data.password.Some? && v.data.password.value != ""))
    && (o.spec.imports.None? ==> v.owner == Some(o.uid) && (o.spec.fromMeta ==> v.data.username.value == meta))
  }

  predicate Disturbed(sc: Script) {
    && Outside(sc.atResolve) && Outside(sc.atRegister) && Outside(sc.atFetch) && Outside(sc.atRecord) && Outside(sc.atPut)
    && Outside(sc.atLimits) && Outside(sc.atReport) && Outside(sc.atDelete) && Outside(sc.atRelease)
    && forall k :: 0 <= k < |sc.attempts| ==> Outside(sc.attempts[k].slot)
  }

  datatype Outcome = Stopped | Err | Ok

  datatype Tried = Declared | Conflict | GaveUp | Died

  /** Others do not see, and do not move, the reconcile. */
  lemma OthersKeepPhase(s: State, p: Phase, e: Event)
    requires Well(s) && ByOthers(e) && !e.Crash? && (p.Idle? || Copy(s.hist, p.at))
    ensures var t := OthersStep(s, e);
            && OthersStep(s.(phase := p), e) == t.(phase := p)
            && t.phase == s.phase && t.puts == s.puts && t.released == s.released
  {
    match e
    case UserCreates(_) =>
    case UserUpdates(_) =>
    case UserTouches =>
    case UserDeletes =>
    case CacheAdvances(_) =>
    case SecretEdited(_, _, _, _) =>
    case SecretDeleted(_) =>
    case SecretCacheAdvances(_, _) =>
    case BrokerForgets(_) =>
  }

  class UserReconciler {
    const meta: string
    var hist: seq<Snapshot>
    var cacheAt: nat
    var secrets: map<string, seq<SecretVersion>>
    var secretAt: map<string, nat>
    var users: map<string, nat>
    var puts: seq<Put>
    var released: set<nat>

    constructor (meta: string, spec: UserSpec, secrets: map<string, seq<SecretVersion>>, secretAt: map<string, nat>)
      requires forall n, i :: n in secrets && 0 <= i < |secrets[n]| ==> secrets[n][i].SecretStored? ==> !secrets[n][i].byOperator
      ensures Valid() && Start(At(Idle))
    {
      this.meta, this.secrets, this.secretAt := meta, secrets, secretAt;
      hist, cacheAt := [Present(User(1, spec, false, false, UserStatus("", None, None)))], 0;
      users, puts, released := map[], [], {};
    }

    /** The stores as a state of the machine in a given phase. */
    ghost function At(p: Phase): State
      reads this
    {
      State(meta, hist, cacheAt, secrets, secretAt, users, puts, released, p)
    }

    ghost predicate Valid()
      reads this
    {
      |hist| > 0 && cacheAt < |hist|
    }

    ghost predicate Ready(p: Phase)
      reads this
    {
      Valid() && (p.Idle? || Copy(hist, p.at))
    }

    /** The cache shows a secret that serves this User. */
    ghost predicate Served(o: User)
      reads this
    {
      !(o.spec.fromMeta && o.spec.imports.Some?) && Serves(meta, o, Cached(At(Idle), SecretOf(At(Idle), o.spec)))
    }

    /** One thing others do. */
    method Act(e: Event, ghost p: Phase)
      requires Ready(p) && ByOthers(e) && !e.Crash?
      modifies this`hist, this`cacheAt, this`secrets, this`secretAt, this`users
      ensures Ready(p) && old(hist) <= hist && At(p) == Step(old(At(p)), e)
    {
      var s := State(meta, hist, cacheAt, secrets, secretAt, users, puts, released, Idle);
      var t := OthersStep(s, e);
      OthersKeepPhase(s, p, e);
      hist, cacheAt, secrets, secretAt, users := t.hist, t.cacheAt, t.secrets, t.secretAt, t.users;
    }

    /** Others act before a call, or the operator dies there. */
    method Before(slot: Slot, ghost p: Phase) returns (ghost log: seq<Event>)
      requires Ready(p) && Outside(slot)
      modifies this`hist, this`cacheAt, this`secrets, this`secretAt, this`users
      ensures Ready(p) && old(hist) <= hist
      ensures At(if slot.stopped then Idle else p) == Run(old(At(p)), log)
      ensures Quiet(slot) ==> hist == old(hist) && secrets == old(secrets) && secretAt == old(secretAt) && users == old(users) && cacheAt == old(cacheAt)
    {
      log := [];
      for k := 0 to |slot.others|
        invariant Ready(p) && At(p) == Run(old(At(p)), log) && old(hist) <= hist
        invariant slot.others == [] ==> hist == old(hist) && secrets == old(secrets) && secretAt == old(secretAt)
                                        && users == old(users) && cacheAt == old(cacheAt)
      {
        assert slot.others[k] in slot.others;
        RunThenStep(old(At(p)), log, slot.others[k]);
        Act(slot.others[k], p);
        log := log + [slot.others[k]];
      }
      if slot.stopped {
        RunThenStep(old(At(p)), log, Crash);
        log := log + [Crash];
      }
    }

    /** An update of version `at`: stale versions conflict. */
    method Update(at: nat, next: Snapshot, write: Write) returns (stored: bool)
      requires Valid() && Copy(hist, at)
      modifies this`hist
      ensures stored <==> !write.Rejected? && at + 1 == |old(hist)|
      ensures hist == if stored then old(hist) + [next] else old(hist)
    {
      stored := !write.Rejected? && at + 1 == |hist|;
      if stored {
        hist := hist + [next];
      }
    }

    method StoreVersion(name: string, v: SecretVersion)
      modifies this`secrets
      ensures forall p :: At(p) == StoreSecret(old(At(p)), name, v)
    {
      secrets := secrets[name := (if name in secrets then secrets[name] else []) + [v]];
    }

    /** Get of a secret through the cache. */
    method GetSecret(name: string) returns (v: SecretVersion)
      ensures v == Cached(At(Idle), name)
    {
      var log := if name in secrets then secrets[name] else [];
      var n := if name in secretAt then secretAt[name] else 0;
      v := if 0 < n <= |log| && log[n-1].SecretStored? && log[n-1].labelled then log[n-1] else NoSecret;
    }

    /** addFinalizerIfNeeded, for a User without the finalizer. */
    method AddFinalizer(at: nat, sc: Script) returns (added: bool, ghost log: seq<Event>)
      requires Ready(Registering(at)) && Disturbed(sc)
      modifies this`hist, this`cacheAt, this`secrets, this`secretAt, this`users
      ensures Valid() && (added ==> Last(hist) == Present(old(hist[at].obj).(finalizer := true)))
      ensures At(if added then Declaring(At(Idle), |hist| - 1) else Idle) == Run(old(At(Registering(at))), log)
      ensures Smooth(sc) && at + 1 == |old(hist)| ==> added && secrets == old(secrets) && secretAt == old(secretAt)
    {
      ghost var start := At(Registering(at));
      log := Before(sc.atRegister, Registering(at));
      if sc.atRegister.stopped {
        return false, log;
      }
      RunThenStep(start, log, Registers(sc.registration));
      log := log + [Registers(sc.registration)];
      var stored := Update(at, Present(hist[at].obj.(finalizer := true)), sc.registration);
      added := stored && sc.registration.Stored?;
    }

    /** One CreateOrUpdate of the generated secret: the credentials at hand are stored only when
        there is no secret; an existing one keeps its data. */
    method CreateOrUpdate(at: nat, username: string, password: string, write: Write) returns (tried: Tried)
      requires Ready(Crediting(at))
      modifies this`secrets
      ensures !tried.Died? && At(AfterTry(tried, at)) == CreditStep(old(At(Crediting(at))), at, username, password, write)
    {
      var name := meta + "-user-credentials";
      var versions := if name in secrets then secrets[name] else [];
      var seen := GetSecret(name);
      var uid := hist[at].obj.uid;
      if write.Rejected? || (seen.SecretStored? && seen.owner.Some? && seen.owner.value != uid) {
        return GaveUp;
      }
      if seen.NoSecret? && versions != [] && versions[|versions|-1].SecretStored? {
        return GaveUp;
      }
      if seen.SecretStored? && seen.owner.Some? {
        return Declared;
      }
      if seen.SecretStored? && (if name in secretAt then secretAt[name] else 0) != |versions| {
        return Conflict;
      }
      var data := if seen.SecretStored? then seen.data
                  else SecretData(Some(if hist[at].obj.spec.fromMeta then meta else username), Some(password), None);
      StoreVersion(name, SecretStored(data, true, Some(uid), true));
      tried := if write.Stored? then Declared else GaveUp;
    }

    ghost function AfterTry(tried: Tried, at: nat): Phase
      requires Copy(hist, at)
      reads this
    {
      match tried
      case Declared => Fetching(at, Generated(At(Idle)))
      case Conflict => Crediting(at)
      case GaveUp => Failed(At(Idle), at, hist[at].obj.status)
      case Died => Idle
    }

    method TryOnce(at: nat, attempt: Attempt, sc: Script) returns (tried: Tried, ghost log: seq<Event>)
      requires Ready(Crediting(at)) && Outside(attempt.slot)
      modifies this`hist, this`cacheAt, this`secrets, this`secretAt, this`users
      ensures Ready(Crediting(at)) && old(hist) <= hist
      ensures At(AfterTry(tried, at)) == Run(old(At(Crediting(at))), log)
      ensures Quiet(attempt.slot) && attempt.write.Stored? && old(hist[at].obj.spec.imports.None? && Served(hist[at].obj)) ==>
                tried.Declared? && hist == old(hist) && Served(hist[at].obj)
    {
      ghost var start := At(Crediting(at));
      log := Before(attempt.slot, Crediting(at));
      if attempt.slot.stopped {
        return Died, log;
      }
      RunThenStep(start, log, Credits(sc.username, sc.password, attempt.write));
      log := log + [Credits(sc.username, sc.password, attempt.write)];
      tried := CreateOrUpdate(at, sc.username, sc.password, attempt.write);
    }

    /** declareCredentials: CreateOrUpdate, tried again on a conflict. */
    method DeclareCredentials(at: nat, sc: Script) returns (tried: Tried, ghost log: seq<Event>)
      requires Ready(Crediting(at)) && Disturbed(sc)
      modifies this`hist, this`cacheAt, this`secrets, this`secretAt, this`users
      ensures Ready(Crediting(at)) && old(hist) <= hist && !tried.Conflict?
      ensures At(AfterTry(tried, at)) == Run(old(At(Crediting(at))), log)
      ensures Smooth(sc) && old(hist[at].obj.spec.imports.None? && Served(hist[at].obj)) ==>
                tried.Declared? && hist == old(hist) && Served(hist[at].obj)
    {
      ghost var start := At(Crediting(at));
      ghost var good := Smooth(sc) && hist[at].obj.spec.imports.None? && Served(hist[at].obj);
      log := [];
      for k := 0 to |sc.attempts|
        invariant Ready(Crediting(at)) && old(hist) <= hist
        invariant At(Crediting(at)) == Run(start, log)
        invariant good ==> k == 0 && At(Idle) == old(At(Idle))
      {
        ghost var more;
        tried, more := TryOnce(at, sc.attempts[k], sc);
        RunThenRun(start, log, more);
        log := log + more;
        if !tried.Conflict? {
          return;
        }
      }
      RunThenStep(start, log, Credits(sc.username, sc.password, Rejected));
      return GaveUp, log + [Credits(sc.username, sc.password, Rejected)];
    }

    /** getUserCredentials or importCredentials, and the checks on what they return. */
    method CheckCredentials(at: nat, name: string, fails: bool) returns (ok: bool, data: SecretData)
      requires Ready(Fetching(at, name))
      ensures var v, spec := Cached(At(Idle), name), hist[at].obj.spec;
              && (ok <==>
                    && !fails && v.SecretStored? && v.data.username.Some? && v.data.username.value != ""
                    && (if spec.imports.None? then spec.fromMeta ==> v.data.username.value == meta
                        else v.data.hash.Some? || (v.data.password.Some? && v.data.password.value != "")))
              && (ok ==> data == v.data)
      ensures At(if ok then Recording(at, name, data) else Failed(At(Idle), at, hist[at].obj.status))
              == FetchStep(At(Fetching(at, name)), at, name, fails)
    {
      data := SecretData(None, None, None);
      var v := GetSecret(name);
      if fails || v.NoSecret? || v.data.username.None? || v.data.username.value == "" {
        return false, data;
      }
      var spec := hist[at].obj.spec;
      if spec.imports.None? && spec.fromMeta && v.data.username.value != meta {
        return false, data;
      }
      if spec.imports.Some? && v.data.hash.None? && (v.data.password.None? || v.data.password.value == "") {
        return false, data;
      }
      return true, v.data;
    }

    /** The same, with what happens before it. */
    method FetchCredentials(at: nat, name: string, sc: Script) returns (out: Outcome, data: SecretData, ghost log: seq<Event>)
      requires Ready(Fetching(at, name)) && Disturbed(sc)
      modifies this`hist, this`cacheAt, this`secrets, this`secretAt, this`users
      ensures Ready(Fetching(at, name)) && old(hist) <= hist
      ensures out.Ok? ==> Acceptable(At(Idle), hist[at].obj.spec, data)
      ensures Smooth(sc) && old(Served(hist[at].obj) && name == SecretOf(At(Idle), hist[at].obj.spec)) ==>
                && out.Ok? && hist == old(hist)
                && (data.hash.Some? || (data.password.Some? && data.password.value != ""))
      ensures At(match out
                 case Ok => Recording(at, name, data)
                 case Err => Failed(At(Idle), at, hist[at].obj.status)
                 case Stopped => Idle)
              == Run(old(At(Fetching(at, name))), log)
    {
      ghost var start := At(Fetching(at, name));
      log := Before(sc.atFetch, Fetching(at, name));
      if sc.atFetch.stopped {
        return Stopped, SecretData(None, None, None), log;
      }
      RunThenStep(start, log, Fetches(sc.fetchFails));
      log := log + [Fetches(sc.fetchFails)];
      var ok;
      ok, data := CheckCredentials(at, name, sc.fetchFails);
      out := if ok then Ok else Err;
    }

    /** setUserStatus, unless the status says so already. The status in memory is changed even when
        the write fails. */
    method SetUserStatus(at: nat, name: string, data: SecretData, write: Write)
      returns (ok: bool, now: nat, status: UserStatus)
      requires Ready(Recording(at, name, data)) && data.username.Some?
      modifies this`hist
      ensures Valid() && old(hist) <= hist && Copy(hist, now)
      ensures hist[now].obj.spec == old(hist[at].obj.spec) && hist[now].obj.uid == old(hist[at].obj.uid)
      ensures At(if ok then Putting(now, name, data) else Failed(At(Idle), now, status))
              == RecordStep(old(At(Recording(at, name, data))), at, name, data, write)
    {
      var o := hist[at].obj;
      now, status := at, o.status.(username := data.username.value, credentials := Some(name));
      if o.status.credentials == Some(name) && o.status.username == data.username.value {
        return true, now, status;
      }
      var stored := Update(at, Present(o.(status := status)), write);
      ok := stored && write.Stored?;
      if ok {
        now := |hist| - 1;
      }
    }

    /** The same, with what happens before it. */
    method RecordUsername(at: nat, name: string, data: SecretData, sc: Script)
      returns (out: Outcome, now: nat, status: UserStatus, ghost log: seq<Event>)
      requires Ready(Recording(at, name, data)) && data.username.Some? && Disturbed(sc)
      modifies this`hist, this`cacheAt, this`secrets, this`secretAt, this`users
      ensures Valid() && old(hist) <= hist && Copy(hist, now)
      ensures hist[now].obj.spec == old(hist[at].obj.spec) && hist[now].obj.uid == old(hist[at].obj.uid)
      ensures At(match out
                 case Ok => Putting(now, name, data)
                 case Err => Failed(At(Idle), now, status)
                 case Stopped => Idle)
              == Run(old(At(Recording(at, name, data))), log)
      ensures Smooth(sc) && at + 1 == |old(hist)| ==> out.Ok? && now + 1 == |hist|
    {
      ghost var start := At(Recording(at, name, data));
      log := Before(sc.atRecord, Recording(at, name, data));
      if sc.atRecord.stopped {
        return Stopped, at, hist[at].obj.status, log;
      }
      RunThenStep(start, log, Records(sc.recording));
      log := log + [Records(sc.recording)];
      var ok;
      ok, now, status := SetUserStatus(at, name, data, sc.recording);
      out := if ok then Ok else Err;
    }

    /** GenerateUserSettings and PutUser. */
    method PutUser(at: nat, name: string, data: SecretData, sc: Script) returns (out: Outcome, ghost log: seq<Event>)
      requires Ready(Putting(at, name, data)) && data.username.Some? && Disturbed(sc)
      modifies this
      ensures Valid() && old(hist) <= hist
      ensures out.Ok? ==> puts == old(puts) + [Put(old(hist[at].obj.uid), name, data)]
      ensures At(match out
                 case Ok => Limiting(at)
                 case Err => Failed(At(Idle), at, hist[at].obj.status)
                 case Stopped => Idle)
              == Run(old(At(Putting(at, name, data))), log)
      ensures Smooth(sc) && (data.hash.Some? || (data.password.Some? && data.password.value != "")) ==> out.Ok? && hist == old(hist)
    {
      ghost var start := At(Putting(at, name, data));
      log := Before(sc.atPut, Putting(at, name, data));
      if sc.atPut.stopped {
        return Stopped, log;
      }
      RunThenStep(start, log, Puts(sc.put));
      log := log + [Puts(sc.put)];
      if data.hash.None? && (data.password.None? || data.password.value == "") {
        return Err, log;
      }
      if !sc.put.Refused? {
        var uid := hist[at].obj.uid;
        users, puts := users[data.username.value := uid], puts + [Put(uid, name, data)];
      }
      return if sc.put.Done? then Ok else Err, log;
    }

    /** reconcileUserLimits; what it does to the limits is in the module Limits. */
    method ReconcileLimits(at: nat, sc: Script) returns (out: Outcome, ghost log: seq<Event>)
      requires Ready(Limiting(at)) && Disturbed(sc)
      modifies this`hist, this`cacheAt, this`secrets, this`secretAt, this`users
      ensures Valid() && old(hist) <= hist
      ensures At(if out.Stopped? then Idle else Reporting(at, hist[at].obj.status.(ready := Some(out.Ok?))))
              == Run(old(At(Limiting(at))), log)
      ensures Smooth(sc) ==> out.Ok?
    {
      ghost var start := At(Limiting(at));
      log := Before(sc.atLimits, Limiting(at));
      if sc.atLimits.stopped {
        return Stopped, log;
      }
      RunThenStep(start, log, Limits(sc.limits));
      return if sc.limits then Ok else Err, log + [Limits(sc.limits)];
    }

    /** The status write after DeclareFunc. */
    method ReportStatus(at: nat, status: UserStatus, sc: Script) returns (ghost log: seq<Event>)
      requires Ready(Reporting(at, status)) && Disturbed(sc)
      modifies this`hist, this`cacheAt, this`secrets, this`secretAt, this`users
      ensures Valid() && old(hist) <= hist && At(Idle) == Run(old(At(Reporting(at, status))), log)
    {
      ghost var start := At(Reporting(at, status));
      log := Before(sc.atReport, Reporting(at, status));
      if !sc.atReport.stopped {
        RunThenStep(start, log, Reports(sc.report));
        log := log + [Reports(sc.report)];
        var _ := Update(at, Present(hist[at].obj.(status := status)), sc.report);
      }
    }

    /** DeleteFunc: nothing to delete if no username was ever recorded. */
    method DeleteFunc(at: nat, sc: Script) returns (done: bool, ghost log: seq<Event>)
      requires Ready(Deleting(at)) && Disturbed(sc)
      modifies this
      ensures Valid() && old(hist) <= hist
      ensures At(if done then Releasing(at, false) else Idle) == Run(old(At(Deleting(at))), log)
      ensures Smooth(sc) ==> done && hist == old(hist)
    {
      ghost var start := At(Deleting(at));
      log := Before(sc.atDelete, Deleting(at));
      if sc.atDelete.stopped {
        return false, log;
      }
      RunThenStep(start, log, Deletes(sc.deletion));
      log := log + [Deletes(sc.deletion)];
      var name := hist[at].obj.status.username;
      if name == "" {
        return true, log;
      }
      if !sc.deletion.Refused? {
        users := users - {name};
      }
      done := sc.deletion.Done?;
    }

    /** removeFinalizer. */
    method RemoveFinalizer(at: nat, forced: bool, sc: Script) returns (err: bool, ghost log: seq<Event>)
      requires Ready(Releasing(at, forced)) && Disturbed(sc)
      modifies this
      ensures Valid() && At(Idle) == Run(old(At(Releasing(at, forced))), log)
      ensures !err ==> Last(hist) == Gone(old(hist[at].obj.uid), old(hist[at].obj.status.username))
      ensures Smooth(sc) && at + 1 == |old(hist)| ==> !err
    {
      ghost var start := At(Releasing(at, forced));
      log := Before(sc.atRelease, Releasing(at, forced));
      if sc.atRelease.stopped {
        return true, log;
      }
      RunThenStep(start, log, Releases(sc.release));
      log := log + [Releases(sc.release)];
      var stored := Update(at, Gone(hist[at].obj.uid, hist[at].obj.status.username), sc.release);
      if stored {
        released := released + if forced then {hist[at].obj.uid} else {};
      }
      err := !stored || sc.release.StoredUnseen?;
    }

    /** DeclareFunc returned an error. */
    method Fail(at: nat, status: UserStatus, sc: Script, ghost start: State, ghost before: seq<Event>)
      returns (ghost log: seq<Event>)
      requires Valid() && Copy(hist, at) && Disturbed(sc) && Well(start)
      requires At(Failed(At(Idle), at, status)) == Run(start, before)
      modifies this`hist, this`cacheAt, this`secrets, this`secretAt, this`users
      ensures Valid() && old(hist) <= hist && At(Idle) == Run(start, log)
    {
      log := ReportStatus(at, status.(ready := Some(false)), sc);
      RunThenRun(start, before, log);
      log := before + log;
    }

    /** From PutUser to the end of the reconcile. */
    method PutAndReport(at: nat, name: string, data: SecretData, sc: Script) returns (err: bool, ghost log: seq<Event>)
      requires Ready(Putting(at, name, data)) && data.username.Some? && Disturbed(sc)
      modifies this
      ensures Valid() && At(Idle) == Run(old(At(Putting(at, name, data))), log)
      ensures !err ==> puts == old(puts) + [Put(old(hist[at].obj.uid), name, data)]
      ensures Smooth(sc) && (data.hash.Some? || (data.password.Some? && data.password.value != "")) ==> !err
    {
      ghost var start := At(Putting(at, name, data));
      var out;
      out, log := PutUser(at, name, data, sc);
      if out.Stopped? {
        return true, log;
      }
      if out.Err? {
        log := Fail(at, hist[at].obj.status, sc, start, log);
        return true, log;
      }
      ghost var more;
      out, more := ReconcileLimits(at, sc);
      RunThenRun(start, log, more);
      log := log + more;
      if out.Stopped? {
        return true, log;
      }
      err := !out.Ok?;
      more := ReportStatus(at, hist[at].obj.status.(ready := Some(out.Ok?)), sc);
      RunThenRun(start, log, more);
      log := log + more;
    }

    /** From setUserStatus on: nothing is put unless the username was recorded first. */
    method RecordAndPut(at: nat, name: string, data: SecretData, sc: Script) returns (err: bool, ghost log: seq<Event>)
      requires Ready(Recording(at, name, data)) && data.username.Some? && Disturbed(sc)
      modifies this
      ensures Valid() && At(Idle) == Run(old(At(Recording(at, name, data))), log)
      ensures !err ==> puts == old(puts) + [Put(old(hist[at].obj.uid), name, data)]
      ensures Smooth(sc) && at + 1 == |old(hist)| && (data.hash.Some? || (data.password.Some? && data.password.value != "")) ==> !err
    {
      ghost var start := At(Recording(at, name, data));
      var out, now, status;
      out, now, status, log := RecordUsername(at, name, data, sc);
      if out.Stopped? {
        return true, log;
      }
      if out.Err? {
        log := Fail(now, status, sc, start, log);
        return true, log;
      }
      ghost var more;
      err, more := PutAndReport(now, name, data, sc);
      RunThenRun(start, log, more);
      log := log + more;
    }

    /** The last PutUser was of acceptable credentials from the secret that the spec asks for. */
    ghost predicate PutFor(o: User)
      reads this
    {
      && puts != []
      && var last := puts[|puts|-1];
      && last.uid == o.uid && last.secret == SecretOf(At(Idle), o.spec) && Acceptable(At(Idle), o.spec, last.data)
    }

    /** From the secret on. */
    method UseSecret(at: nat, name: string, sc: Script) returns (err: bool, ghost log: seq<Event>)
      requires Ready(Fetching(at, name)) && name == SecretOf(At(Idle), hist[at].obj.spec) && Disturbed(sc)
      modifies this
      ensures Valid() && At(Idle) == Run(old(At(Fetching(at, name))), log)
      ensures !err ==> PutFor(old(hist[at].obj))
      ensures Smooth(sc) && at + 1 == |old(hist)| && old(Served(hist[at].obj)) ==> !err
    {
      ghost var start := At(Fetching(at, name));
      var out, data;
      out, data, log := FetchCredentials(at, name, sc);
      if out.Stopped? {
        return true, log;
      }
      if out.Err? {
        log := Fail(at, hist[at].obj.status, sc, start, log);
        return true, log;
      }
      ghost var more;
      err, more := RecordAndPut(at, name, data, sc);
      RunThenRun(start, log, more);
      log := log + more;
    }

    /** declareWithGeneratedCredentials. */
    method DeclareGenerated(at: nat, sc: Script) returns (err: bool, ghost log: seq<Event>)
      requires Ready(Crediting(at)) && hist[at].obj.spec.imports.None? && Disturbed(sc)
      modifies this
      ensures Valid() && At(Idle) == Run(old(At(Crediting(at))), log)
      ensures !err ==> PutFor(old(hist[at].obj))
      ensures Smooth(sc) && at + 1 == |old(hist)| && old(Served(hist[at].obj)) ==> !err
    {
      ghost var start := At(Crediting(at));
      var tried;
      tried, log := DeclareCredentials(at, sc);
      if tried.Died? {
        return true, log;
      }
      if tried.GaveUp? {
        log := Fail(at, hist[at].obj.status, sc, start, log);
        return true, log;
      }
      ghost var more;
      err, more := UseSecret(at, meta + "-user-credentials", sc);
      RunThenRun(start, log, more);
      log := log + more;
    }

    /** DeclareFunc, and what Reconcile does with its result. */
    method DeclareFunc(at: nat, sc: Script) returns (err: bool, ghost log: seq<Event>)
      requires Valid() && Copy(hist, at) && Disturbed(sc)
      modifies this
      ensures Valid() && At(Idle) == Run(old(At(Declaring(At(Idle), at))), log)
      ensures !err ==> PutFor(old(hist[at].obj))
      ensures Smooth(sc) && at + 1 == |old(hist)| && old(Served(hist[at].obj)) ==> !err
    {
      var spec := hist[at].obj.spec;
      if spec.fromMeta && spec.imports.Some? {
        log := ReportStatus(at, hist[at].obj.status.(ready := Some(false)), sc);
        err := true;
      } else if spec.imports.Some? {
        err, log := UseSecret(at, spec.imports.value, sc);
      } else {
        err, log := DeclareGenerated(at, sc);
      }
    }

    /** A User without the finalizer gets it before anything else is done for it. */
    method RegisterAndDeclare(at: nat, sc: Script) returns (err: bool, ghost log: seq<Event>)
      requires Ready(Registering(at)) && Disturbed(sc)
      modifies this
      ensures Valid() && At(Idle) == Run(old(At(Registering(at))), log)
      ensures !err ==> PutFor(old(hist[at].obj))
      ensures Smooth(sc) && at + 1 == |old(hist)| && old(Served(hist[at].obj)) ==> !err
    {
      ghost var start := At(Registering(at));
      var added;
      added, log := AddFinalizer(at, sc);
      if !added {
        return true, log;
      }
      assert Smooth(sc) && at + 1 == |old(hist)| && old(Served(hist[at].obj)) ==> Served(Last(hist).obj);
      ghost var more;
      err, more := DeclareFunc(|hist| - 1, sc);
      RunThenRun(start, log, more);
      log := log + more;
    }

    /** A marked User. */
    method Delete(at: nat, sc: Script) returns (err: bool, ghost log: seq<Event>)
      requires Ready(Deleting(at)) && Disturbed(sc)
      modifies this
      ensures Valid() && At(Idle) == Run(old(At(Deleting(at))), log)
      ensures !err ==> Last(hist) == Gone(old(hist[at].obj.uid), old(hist[at].obj.status.username))
      ensures Smooth(sc) && at + 1 == |old(hist)| ==> !err
    {
      ghost var start := At(Deleting(at));
      var done;
      done, log := DeleteFunc(at, sc);
      if !done {
        return true, log;
      }
      ghost var more;
      err, more := RemoveFinalizer(at, false, sc);
      RunThenRun(start, log, more);
      log := log + more;
    }

    /** What a nil error means for the version that was read: a marked User is gone, any other was put
        from the secret its spec asks for; or it waits for its cluster, which is at zero (an
        unmarked User) or does not allow the reference. */
    ghost predicate Settled(o: User, resolution: Resolution)
      reads this
    {
      || (o.marked && |hist| > 0 && Last(hist) == Gone(o.uid, o.status.username))
      || (!o.marked && PutFor(o))
      || (!o.marked && resolution.AtZero?)
      || resolution.NotAllowed?
    }

    /** handleRMQReferenceParseError. */
    method HandleParseError(at: nat, sc: Script) returns (err: bool, ghost log: seq<Event>)
      requires Valid() && Copy(hist, at) && Disturbed(sc) && sc.resolution != Resolved
      modifies this
      ensures Valid() && At(Idle) == Run(old(At(AfterResolution(At(Idle), at, sc.resolution))), log)
      ensures !err ==> Settled(old(hist[at].obj), sc.resolution)
      ensures Smooth(sc) && at + 1 == |old(hist)| && old(hist[at].obj.marked) && (sc.resolution.NoSuchCluster? || sc.resolution.AtZero?) ==> !err
      ensures sc.resolution.NotAllowed? || (sc.resolution.AtZero? && !old(hist[at].obj.marked)) ==> !err
      ensures sc.resolution.OtherError? || (sc.resolution.NoSuchCluster? && !old(hist[at].obj.marked)) ==> err
    {
      var o := hist[at].obj;
      log := [];
      if sc.resolution.NoSuchCluster? && o.marked {
        err, log := RemoveFinalizer(at, true, sc);
      } else if sc.resolution.NoSuchCluster? {
        err := true;
      } else if sc.resolution.AtZero? && o.marked {
        err, log := RemoveFinalizer(at, true, sc);
      } else {
        log := ReportStatus(at, o.status.(ready := Some(false)), sc);
        err := sc.resolution.OtherError?;
      }
    }

    /** The reconcile once the cluster is known, or known to be out of reach. */
    method Proceed(at: nat, sc: Script) returns (err: bool, ghost log: seq<Event>)
      requires Valid() && Copy(hist, at) && Disturbed(sc)
      modifies this
      ensures Valid() && At(Idle) == Run(old(At(AfterResolution(At(Idle), at, sc.resolution))), log)
      ensures !err ==> Settled(old(hist[at].obj), sc.resolution)
      ensures Smooth(sc) && sc.resolution.Resolved? && at + 1 == |old(hist)|
              && old(hist[at].obj.marked || Served(hist[at].obj)) ==>
                !err
    {
      var o := hist[at].obj;
      if sc.resolution != Resolved {
        err, log := HandleParseError(at, sc);
      } else if o.marked {
        err, log := Delete(at, sc);
      } else if !o.finalizer {
        err, log := RegisterAndDeclare(at, sc);
      } else {
        err, log := DeclareFunc(at, sc);
      }
    }

    /** ParseReference. */
    method Resolve(at: nat, sc: Script) returns (stopped: bool, ghost log: seq<Event>)
      requires Ready(Resolving(at)) && Disturbed(sc)
      modifies this`hist, this`cacheAt, this`secrets, this`secretAt, this`users
      ensures Ready(Resolving(at)) && old(hist) <= hist
      ensures At(if stopped then Idle else AfterResolution(At(Idle), at, sc.resolution)) == Run(old(At(Resolving(at))), log)
      ensures Smooth(sc) ==> !stopped && hist == old(hist) && secrets == old(secrets) && secretAt == old(secretAt)
    {
      ghost var start := At(Resolving(at));
      log := Before(sc.atResolve, Resolving(at));
      stopped := sc.atResolve.stopped;
      if !stopped {
        RunThenStep(start, log, Resolves(sc.resolution));
        log := log + [Resolves(sc.resolution)];
      }
    }

    /** From the version that was read on. */
    method ResolveAndProceed(at: nat, sc: Script) returns (err: bool, ghost log: seq<Event>)
      requires Ready(Resolving(at)) && Disturbed(sc)
      modifies this
      ensures Valid() && At(Idle) == Run(old(At(Resolving(at))), log)
      ensures !err ==> Settled(old(hist[at].obj), sc.resolution)
      ensures Smooth(sc) && sc.resolution.Resolved? && at + 1 == |old(hist)|
              && old(hist[at].obj.marked || Served(hist[at].obj)) ==>
                !err
    {
      ghost var start := At(Resolving(at));
      var stopped;
      stopped, log := Resolve(at, sc);
      if stopped {
        return true, log;
      }
      assert Smooth(sc) && old(Served(hist[at].obj)) ==> Served(hist[at].obj);
      ghost var more;
      err, more := Proceed(at, sc);
      RunThenRun(start, log, more);
      log := log + more;
    }

    /** One reconcile of the User. It is a run of the machine whatever happens around it; and when it
        returns no error, so that nothing retries it, the version it read is settled. */
    method Reconcile(sc: Script) returns (err: bool, ghost log: seq<Event>)
      requires Valid() && Disturbed(sc)
      modifies this
      ensures Valid() && At(Idle) == Run(old(At(Idle)), log)
      ensures !err && old(hist[cacheAt]).Present? ==> Settled(old(hist[cacheAt].obj), sc.resolution)
      ensures Smooth(sc) && old(hist[cacheAt]).Present? && sc.resolution.Resolved? && old(cacheAt) + 1 == |old(hist)|
              && old(hist[cacheAt].obj.marked || Served(hist[cacheAt].obj)) ==>
                !err
    {
      ghost var start := At(Idle);
      var at := cacheAt;
      RunThenStep(start, [], Reads);
      log := [] + [Reads];
      if hist[at].Gone? {
        return false, log;
      }
      ghost var more;
      err, more := ResolveAndProceed(at, sc);
      RunThenRun(start, log, more);
      log := log + more;
    }

    /** Any number of reconciles keep what is known of credentials. */
    method ReconcileForever(scripts: seq<Script>)
      requires Valid() && Inv(At(Idle)) && forall sc :: sc in scripts ==> Disturbed(sc)
      modifies this
      ensures Valid() && Inv(At(Idle))
    {
      for k := 0 to |scripts|
        invariant Valid() && Inv(At(Idle))
      {
        ghost var before := At(Idle);
        ghost var log;
        var err;
        err, log := Reconcile(scripts[k]);
        RunKeeps(before, log);
      }
    }
  }
}
