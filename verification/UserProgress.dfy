/** What a User's reconciles can reach: which Users can be declared at all, which secrets are
    adopted, and what a moved username leaves behind. */
module UserProgress {
  import opened Types
  import opened UserCredentials

  predicate HasPassword(data: SecretData) {
    data.hash.Some? || (data.password.Some? && data.password.value != "")
  }

  /** The secret can serve this User: the cache shows it, no other controller owns it, and its data
      passes the checks. */
  predicate Usable(s: State, o: User, v: SecretVersion) {
    && v.SecretStored? && v.labelled && (o.spec.imports.None? ==> v.owner in [None, Some(o.uid)])
    && Acceptable(s, o.spec, v.data) && HasPassword(v.data)
  }

  /** Nothing is going on, and the caches show the latest User and the latest version of the secret
      its spec asks for. */
  predicate Fresh(s: State, o: User) {
    && Well(s) && s.phase.Idle? && s.cacheAt + 1 == |s.hist| && Last(s.hist) == Present(o) && !o.marked
    && Seen(s, SecretOf(s, o.spec)) == |SecretLog(s, SecretOf(s, o.spec))|
  }

  predicate UpToDate(s: State, o: User, v: SecretVersion) {
    Fresh(s, o) && !(o.spec.fromMeta && o.spec.imports.Some?) && CurrentSecret(s, SecretOf(s, o.spec)) == v && Usable(s, o, v)
  }

  predicate LeavesSecret(e: Event, name: string) {
    (e.SecretEdited? || e.SecretDeleted?) ==> e.name != name
  }

  /** Nobody edits the User or the secret. */
  predicate Unaided(e: Event, name: string) {
    !e.UserCreates? && !e.UserUpdates? && !e.UserDeletes? && LeavesSecret(e, name)
  }

  ghost predicate AllUnaided(es: seq<Event>, name: string) {
    forall e :: e in es ==> Unaided(e, name)
  }

  /** What one undisturbed reconcile makes of a usable secret. */
  predicate Synced(s: State, t: State, o: User, data: SecretData)
    requires data.username.Some?
  {
    var u, name := data.username.value, SecretOf(s, o.spec);
    && Well(t) && t.phase.Idle? && s.hist <= t.hist
    && Last(t.hist) == Present(o.(finalizer := true, status := UserStatus(u, Some(name), Some(true))))
    && t.users == s.users[u := o.uid] && t.puts == s.puts + [Put(o.uid, name, data)]
    && t.meta == s.meta && t.released == s.released
    && CurrentSecret(t, name).SecretStored? && CurrentSecret(t, name).data == data
    && (o.spec.imports.Some? ==> t.secrets == s.secrets && t.secretAt == s.secretAt)
    && (o.spec.imports.None? ==> CurrentSecret(t, name).owner == Some(o.uid))
  }

  /** Reading, resolving and registering. */
  lemma StartsDeclareFunc(s: State, o: User) returns (es: seq<Event>)
    requires Fresh(s, o)
    ensures AllUnaided(es, SecretOf(s, o.spec))
    ensures var t := Run(s, es);
            && s.hist <= t.hist && Last(t.hist) == Present(o.(finalizer := true))
            && t == s.(hist := t.hist, phase := Declaring(t, |t.hist| - 1))
  {
    RunThenStep(s, [], Reads);
    es := [] + [Reads];
    assert Run(s, es) == s.(phase := Resolving(s.cacheAt));
    RunThenStep(s, es, Resolves(Resolved));
    es := es + [Resolves(Resolved)];
    if !o.finalizer {
      assert Run(s, es) == s.(phase := Registering(s.cacheAt));
      RunThenStep(s, es, Registers(Stored));
      es := es + [Registers(Stored)];
    }
  }

  lemma StartsDeclaring(s: State, o: User) returns (es: seq<Event>)
    requires Fresh(s, o) && !(o.spec.fromMeta && o.spec.imports.Some?)
    ensures AllUnaided(es, SecretOf(s, o.spec))
    ensures var t := Run(s, es);
            && s.hist <= t.hist && Last(t.hist) == Present(o.(finalizer := true))
            && var at := |t.hist| - 1;
               t == s.(hist := t.hist,
                       phase := if o.spec.imports.Some? then Fetching(at, o.spec.imports.value) else Crediting(at))
  {
    es := StartsDeclareFunc(s, o);
  }

  /** The generated secret is there already, the User's own or nobody's. */
  lemma FindsSecret(s: State, at: nat, v: SecretVersion) returns (es: seq<Event>)
    requires Well(s) && Copy(s.hist, at) && v.SecretStored? && v.owner in [None, Some(s.hist[at].obj.uid)]
    requires s.phase == Crediting(at) && Cached(s, Generated(s)) == v && Seen(s, Generated(s)) == |SecretLog(s, Generated(s))|
    ensures AllUnaided(es, Generated(s))
    ensures var uid, next := s.hist[at].obj.uid, s.(phase := Fetching(at, Generated(s)));
            Run(s, es) == if v.owner.Some? then next
                          else StoreSecret(next, Generated(s), SecretStored(v.data, true, Some(uid), true))
  {
    RunThenStep(s, [], Credits("", "", Stored));
    es := [] + [Credits("", "", Stored)];
  }

  /** There is no generated secret: one is created, and the cache comes to show it. */
  lemma CreatesSecret(s: State, at: nat, username: string, password: string) returns (es: seq<Event>)
    requires Well(s) && Copy(s.hist, at) && s.phase == Crediting(at)
    requires CurrentSecret(s, Generated(s)).NoSecret? && Seen(s, Generated(s)) == |SecretLog(s, Generated(s))|
    ensures AllUnaided(es, Generated(s))
    ensures var o, name, n := s.hist[at].obj, Generated(s), |SecretLog(s, Generated(s))| + 1;
            var data := SecretData(Some(if o.spec.fromMeta then s.meta else username), Some(password), None);
            Run(s, es) == StoreSecret(s, name, SecretStored(data, true, Some(o.uid), true))
                          .(phase := Fetching(at, name), secretAt := s.secretAt[name := n])
  {
    var name := Generated(s);
    assert Cached(s, name).NoSecret?;
    RunThenStep(s, [], Credits(username, password, Stored));
    es := [] + [Credits(username, password, Stored)];
    var n := |SecretLog(s, name)| + 1;
    RunThenStep(s, es, SecretCacheAdvances(name, n));
    es := es + [SecretCacheAdvances(name, n)];
  }

  /** The secret's username is recorded. */
  lemma RecordsUsername(s: State, at: nat, name: string, v: SecretVersion) returns (es: seq<Event>)
    requires Well(s) && at + 1 == |s.hist| && Last(s.hist).Present? && v.SecretStored?
    requires s.phase == Fetching(at, name) && Cached(s, name) == v && Acceptable(s, Last(s.hist).obj.spec, v.data)
    ensures AllUnaided(es, name)
    ensures var o, t := Last(s.hist).obj, Run(s, es);
            && t == s.(hist := t.hist, phase := Putting(|t.hist| - 1, name, v.data))
            && s.hist <= t.hist
            && Last(t.hist) == Present(o.(status := UserStatus(v.data.username.value, Some(name), o.status.ready)))
  {
    RunThenStep(s, [], Fetches(false));
    es := [] + [Fetches(false)];
    assert Run(s, es) == s.(phase := Recording(at, name, v.data));
    RunThenStep(s, es, Records(Stored));
    es := es + [Records(Stored)];
  }

  /** The credentials are put, and success is reported. */
  lemma PutsAndReports(s: State, at: nat, name: string, data: SecretData) returns (es: seq<Event>)
    requires Well(s) && at + 1 == |s.hist| && Last(s.hist).Present? && s.phase == Putting(at, name, data)
    requires data.username.Some? && HasPassword(data)
    ensures AllUnaided(es, name)
    ensures var o := Last(s.hist).obj;
            Run(s, es) == s.(hist := s.hist + [Present(o.(status := o.status.(ready := Some(true))))], phase := Idle,
                             users := s.users[data.username.value := o.uid], puts := s.puts + [Put(o.uid, name, data)])
  {
    RunThenStep(s, [], Puts(Done));
    es := [] + [Puts(Done)];
    var o := Last(s.hist).obj;
    var t := s.(users := s.users[data.username.value := o.uid], puts := s.puts + [Put(o.uid, name, data)], phase := Limiting(at));
    assert Run(s, es) == t;
    RunThenStep(s, es, Limits(true));
    es := es + [Limits(true)];
    assert Run(s, es) == t.(phase := Reporting(at, s.hist[at].obj.status.(ready := Some(true))));
    RunThenStep(s, es, Reports(Stored));
    es := es + [Reports(Stored)];
  }

  /** From the secret to the end. */
  lemma UsesSecret(s: State, at: nat, name: string, v: SecretVersion) returns (es: seq<Event>)
    requires Well(s) && at + 1 == |s.hist| && Last(s.hist).Present? && v.SecretStored?
    requires s.phase == Fetching(at, name) && Cached(s, name) == v && Acceptable(s, Last(s.hist).obj.spec, v.data) && HasPassword(v.data)
    ensures AllUnaided(es, name)
    ensures var o, t, u := Last(s.hist).obj, Run(s, es), v.data.username.value;
            && s.hist <= t.hist && Last(t.hist) == Present(o.(status := UserStatus(u, Some(name), Some(true))))
            && t == s.(hist := t.hist, phase := Idle, users := s.users[u := o.uid], puts := s.puts + [Put(o.uid, name, v.data)])
  {
    es := RecordsUsername(s, at, name, v);
    var mid := Run(s, es);
    var put := PutsAndReports(mid, |mid.hist| - 1, name, v.data);
    RunThenRun(s, es, put);
    es := es + put;
  }

  lemma Join(s: State, es: seq<Event>, fs: seq<Event>, name: string)
    requires Well(s) && AllUnaided(es, name) && AllUnaided(fs, name)
    ensures Run(s, es + fs) == Run(Run(s, es), fs) && AllUnaided(es + fs, name)
  {
    RunThenRun(s, es, fs);
  }

  /** A reconcile of o that began in s is about to read this usable secret. */
  predicate AtSecret(s: State, mid: State, o: User, v: SecretVersion) {
    var name := SecretOf(s, o.spec);
    && Well(mid) && s.hist <= mid.hist && Last(mid.hist) == Present(o.(finalizer := true))
    && mid == s.(hist := mid.hist, secrets := mid.secrets, secretAt := mid.secretAt, phase := Fetching(|mid.hist| - 1, name))
    && Cached(mid, name) == v && Usable(s, o, v)
    && CurrentSecret(mid, name).SecretStored? && CurrentSecret(mid, name).data == v.data
    && (o.spec.imports.Some? ==> mid.secrets == s.secrets && mid.secretAt == s.secretAt)
    && (o.spec.imports.None? ==> CurrentSecret(mid, name).owner == Some(o.uid))
  }

  lemma FinishesSync(s: State, mid: State, o: User, v: SecretVersion) returns (es: seq<Event>)
    requires AtSecret(s, mid, o, v)
    ensures AllUnaided(es, SecretOf(s, o.spec)) && Synced(s, Run(mid, es), o, v.data)
  {
    es := UsesSecret(mid, |mid.hist| - 1, SecretOf(s, o.spec), v);
  }

  /** A reconcile of o that began in s has come to the credentials. */
  predicate AtCredentials(s: State, mid: State, o: User) {
    && |mid.hist| > 0 && s.hist <= mid.hist && Last(mid.hist) == Present(o.(finalizer := true))
    && mid == s.(hist := mid.hist, phase := Crediting(|mid.hist| - 1))
  }

  lemma FoundAtSecret(s: State, mid: State, o: User, v: SecretVersion)
    requires UpToDate(s, o, v) && o.spec.imports.None? && AtCredentials(s, mid, o)
    ensures Cached(mid, Generated(s)) == v
    ensures var next := mid.(phase := Fetching(|mid.hist| - 1, Generated(s)));
            AtSecret(s, if v.owner.Some? then next
                        else StoreSecret(next, Generated(s), SecretStored(v.data, true, Some(o.uid), true)), o, v)
  {
  }

  lemma CreatedAtSecret(s: State, mid: State, o: User, data: SecretData)
    requires Fresh(s, o) && o.spec.imports.None? && AtCredentials(s, mid, o)
    requires var v := SecretStored(data, true, Some(o.uid), true); Usable(s, o, v)
    ensures var v, name := SecretStored(data, true, Some(o.uid), true), Generated(s);
            AtSecret(s, StoreSecret(mid, name, v).(phase := Fetching(|mid.hist| - 1, name),
                                                   secretAt := s.secretAt[name := |SecretLog(s, name)| + 1]), o, v)
  {
  }

  lemma FindsFrom(s: State, mid: State, o: User, v: SecretVersion) returns (es: seq<Event>)
    requires UpToDate(s, o, v) && o.spec.imports.None? && AtCredentials(s, mid, o)
    ensures AllUnaided(es, Generated(s))
    ensures Well(mid) && AtSecret(s, Run(mid, es), o, v)
  {
    FoundAtSecret(s, mid, o, v);
    es := FindsSecret(mid, |mid.hist| - 1, v);
  }

  lemma ReachesSecret(s: State, o: User, v: SecretVersion) returns (es: seq<Event>)
    requires UpToDate(s, o, v)
    ensures AllUnaided(es, SecretOf(s, o.spec)) && AtSecret(s, Run(s, es), o, v)
  {
    es := StartsDeclaring(s, o);
    if o.spec.imports.Some? {
      assert Cached(Run(s, es), SecretOf(s, o.spec)) == v;
    } else {
      var found := FindsFrom(s, Run(s, es), o, v);
      Join(s, es, found, Generated(s));
      es := es + found;
    }
  }

  /** A rotated password reaches the broker: with caches up to date, one undisturbed reconcile puts
      the credentials the secret now has and records where they came from. */
  lemma RotationReachesBroker(s: State, o: User, v: SecretVersion) returns (es: seq<Event>)
    requires UpToDate(s, o, v)
    ensures AllUnaided(es, SecretOf(s, o.spec)) && Synced(s, Run(s, es), o, v.data)
  {
    es := ReachesSecret(s, o, v);
    var rest := FinishesSync(s, Run(s, es), o, v);
    Join(s, es, rest, SecretOf(s, o.spec));
    es := es + rest;
  }

  /** The credentials this User would get. */
  function IssuedTo(s: State, o: User, username: string, password: string): SecretData {
    SecretData(Some(if o.spec.fromMeta then s.meta else username), Some(password), None)
  }

  lemma GeneratesFrom(s: State, mid: State, o: User, username: string, password: string) returns (es: seq<Event>)
    requires Fresh(s, o) && o.spec.imports.None? && CurrentSecret(s, Generated(s)).NoSecret? && AtCredentials(s, mid, o)
    requires password != "" && (if o.spec.fromMeta then s.meta else username) != ""
    ensures AllUnaided(es, Generated(s))
    ensures Well(mid) && AtSecret(s, Run(mid, es), o, SecretStored(IssuedTo(s, o, username, password), true, Some(o.uid), true))
  {
    CreatedAtSecret(s, mid, o, IssuedTo(s, o, username, password));
    es := CreatesSecret(mid, |mid.hist| - 1, username, password);
  }

  /** Without a secret, one undisturbed reconcile generates the credentials and puts them. */
  lemma GenerationReachesBroker(s: State, o: User, username: string, password: string) returns (es: seq<Event>)
    requires Fresh(s, o) && o.spec.imports.None? && CurrentSecret(s, Generated(s)).NoSecret?
    requires password != "" && (if o.spec.fromMeta then s.meta else username) != ""
    ensures AllUnaided(es, Generated(s))
    ensures Synced(s, Run(s, es), o, IssuedTo(s, o, username, password))
  {
    es := StartsDeclaring(s, o);
    var created := GeneratesFrom(s, Run(s, es), o, username, password);
    Join(s, es, created, Generated(s));
    es := es + created;
    var rest := FinishesSync(s, Run(s, es), o, SecretStored(IssuedTo(s, o, username, password), true, Some(o.uid), true));
    Join(s, es, rest, Generated(s));
    es := es + rest;
  }

  /** The caches catch up with a User and a secret. */
  lemma CatchesUp(s: State, name: string) returns (es: seq<Event>)
    requires Well(s) && Seen(s, name) <= |SecretLog(s, name)|
    ensures AllUnaided(es, name)
    ensures Run(s, es) == s.(cacheAt := |s.hist| - 1, secretAt := s.secretAt[name := |SecretLog(s, name)|], phase := Idle)
  {
    RunThenStep(s, [], Crash);
    es := [] + [Crash];
    RunThenStep(s, es, CacheAdvances(|s.hist| - 1));
    es := es + [CacheAdvances(|s.hist| - 1)];
    RunThenStep(s, es, SecretCacheAdvances(name, |SecretLog(s, name)|));
    es := es + [SecretCacheAdvances(name, |SecretLog(s, name)|)];
  }

  /** Deleting the broker's user and releasing the object. */
  lemma ReconcilesDeletion(s: State, at: nat) returns (es: seq<Event>)
    requires Well(s) && at + 1 == |s.hist| && Copy(s.hist, at) && s.phase == Deleting(at) && s.hist[at].obj.status.username != ""
    ensures var u := s.hist[at].obj.status.username;
            Run(s, es) == s.(hist := s.hist + [Gone(s.hist[at].obj.uid, u)], users := s.users - {u}, phase := Idle)
  {
    RunThenStep(s, [], Deletes(Done));
    es := [] + [Deletes(Done)];
    RunThenStep(s, es, Releases(Stored));
    es := es + [Releases(Stored)];
  }

  /** A User that was deleted without a mishap. */
  lemma DeletesUser(s: State, o: User) returns (es: seq<Event>)
    requires Well(s) && s.phase.Idle? && Last(s.hist) == Present(o) && o.finalizer && !o.marked && o.status.username != ""
    ensures var t := Run(s, es);
            && Last(t.hist) == Gone(o.uid, o.status.username) && t.users == s.users - {o.status.username} && t.released == s.released
  {
    RunThenStep(s, [], UserDeletes);
    es := [] + [UserDeletes];
    RunThenStep(s, es, CacheAdvances(|s.hist|));
    es := es + [CacheAdvances(|s.hist|)];
    RunThenStep(s, es, Reads);
    es := es + [Reads];
    RunThenStep(s, es, Resolves(Resolved));
    es := es + [Resolves(Resolved)];
    var rest := ReconcilesDeletion(Run(s, es), |s.hist|);
    RunThenRun(s, es, rest);
    es := es + rest;
  }

  /** Someone gives the import secret another username, and the operator follows. */
  lemma NameMoves(s: State, o: User, v: SecretVersion) returns (es: seq<Event>)
    requires Well(s) && s.phase.Idle? && Last(s.hist) == Present(o) && o.spec.imports.Some? && !o.spec.fromMeta && !o.marked
    requires v.SecretStored? && v.labelled && !v.byOperator && Acceptable(s, o.spec, v.data)
    requires Seen(s, o.spec.imports.value) <= |SecretLog(s, o.spec.imports.value)|
    ensures var t, u := Run(s, es), v.data.username.value;
            && t.phase.Idle? && t.users == s.users[u := o.uid] && t.released == s.released
            && Last(t.hist) == Present(o.(finalizer := true, status := UserStatus(u, o.spec.imports, Some(true))))
  {
    var name := o.spec.imports.value;
    var edit := SecretEdited(name, v.data, true, v.owner);
    RunThenStep(s, [], edit);
    es := [] + [edit];
    var caught := CatchesUp(Run(s, es), name);
    RunThenRun(s, es, caught);
    es := es + caught;
    var rotated := RotationReachesBroker(Run(s, es), o, v);
    RunThenRun(s, es, rotated);
    es := es + rotated;
  }

  /** A User's import secret is put, then moves to another username, and then the User goes. */
  lemma MovesAndGoes(s: State, o: User, v: SecretVersion) returns (es: seq<Event>)
    requires Well(s) && s.phase.Idle? && Last(s.hist) == Present(o) && o.spec.imports.Some? && !o.spec.fromMeta && !o.marked
    requires v.SecretStored? && v.labelled && !v.byOperator && Acceptable(s, o.spec, v.data)
    requires Seen(s, o.spec.imports.value) <= |SecretLog(s, o.spec.imports.value)|
    ensures var t, u := Run(s, es), v.data.username.value;
            Last(t.hist) == Gone(o.uid, u) && t.users == s.users - {u} && t.released == s.released
  {
    es := NameMoves(s, o, v);
    var mid := Run(s, es);
    var deleted := DeletesUser(mid, Last(mid.hist).obj);
    RunThenRun(s, es, deleted);
    es := es + deleted;
    assert s.users[v.data.username.value := o.uid] - {v.data.username.value} == s.users - {v.data.username.value};
  }

  /** The other half of OneNameMeansGone: for any two usernames there is a run, with no failure in
      it, in which an import secret moves from one to the other and the first user outlives the
      deletion of the User. */
  lemma MovedNameStays(meta: string, secret: string, a: string, b: string, password: string)
    returns (s: State, es: seq<Event>)
    requires a != b && a != "" && b != "" && password != ""
    ensures Start(s) && Last(Run(s, es).hist) == Gone(1, b) && Run(s, es).released == {} && Run(s, es).users == map[a := 1]
  {
    var o := User(1, UserSpec(Some(secret), false), false, false, UserStatus("", None, None));
    var va := SecretStored(SecretData(Some(a), Some(password), None), true, None, false);
    s := State(meta, [Present(o)], 0, map[secret := [va]], map[secret := 1], map[], [], {}, Idle);
    es := RotationReachesBroker(s, o, va);
    var mid := Run(s, es);
    var rest := MovesAndGoes(mid, Last(mid.hist).obj, va.(data := va.data.(username := Some(b))));
    RunThenRun(s, es, rest);
    es := es + rest;
  }

  // ---------------------------------------------------------------- secrets without the label

  /** The generated name is taken by a secret without the label, whatever the cache shows. */
  predicate Unlabelled(s: State) {
    var v := CurrentSecret(s, Generated(s));
    v.SecretStored? && !v.labelled
  }

  lemma UnlabelledByOthers(s: State, e: Event)
    requires Well(s) && Unlabelled(s) && LeavesSecret(e, Generated(s)) && ByOthers(e)
    ensures Unlabelled(OthersStep(s, e)) && SecretLog(OthersStep(s, e), Generated(s)) == SecretLog(s, Generated(s))
  {
  }

  lemma UnlabelledRefused(s: State, at: nat, username: string, password: string, write: Write)
    requires Copy(s.hist, at) && Unlabelled(s)
    ensures CreditStep(s, at, username, password, write).secrets == s.secrets
    ensures CreditStep(s, at, username, password, write).secretAt == s.secretAt
  {
  }

  lemma DeclaringLeavesSecrets(s: State, e: Event)
    requires Well(s) && (s.phase.Fetching? || s.phase.Recording? || s.phase.Putting? || s.phase.Limiting?)
    ensures OperatorStep(s, e).secrets == s.secrets && OperatorStep(s, e).secretAt == s.secretAt
  {
  }

  /** Only declareCredentials stores secrets. */
  lemma OnlyCreditsStore(s: State, e: Event)
    requires Well(s) && !s.phase.Crediting?
    ensures OperatorStep(s, e).secrets == s.secrets && OperatorStep(s, e).secretAt == s.secretAt
  {
    if s.phase.Fetching? || s.phase.Recording? || s.phase.Putting? || s.phase.Limiting? {
      DeclaringLeavesSecrets(s, e);
    }
  }

  lemma UnlabelledByOperator(s: State, e: Event)
    requires Well(s) && Unlabelled(s)
    ensures OperatorStep(s, e).secrets == s.secrets && OperatorStep(s, e).secretAt == s.secretAt
  {
    if s.phase.Crediting? {
      if e.Credits? {
        UnlabelledRefused(s, s.phase.at, e.username, e.password, e.write);
      }
    } else {
      OnlyCreditsStore(s, e);
    }
  }

  lemma UnlabelledStep(s: State, e: Event)
    requires Well(s) && Unlabelled(s) && LeavesSecret(e, Generated(s))
    ensures Unlabelled(Step(s, e)) && SecretLog(Step(s, e), Generated(s)) == SecretLog(s, Generated(s))
  {
    if ByOthers(e) {
      UnlabelledByOthers(s, e);
    } else {
      UnlabelledByOperator(s, e);
    }
  }

  /** The operator cannot adopt such a secret: it sees an outdated version or none, and its update
      conflicts or its create is refused; so until someone else labels or removes the secret,
      every version of it stays as it was. */
  lemma {:induction false} UnlabelledNeverAdopted(s: State, es: seq<Event>)
    requires Well(s) && Unlabelled(s) && forall e :: e in es ==> LeavesSecret(e, Generated(s))
    ensures Unlabelled(Run(s, es)) && SecretLog(Run(s, es), Generated(s)) == SecretLog(s, Generated(s))
    decreases |es|
  {
    if es != [] {
      UnlabelledStep(s, es[0]);
      UnlabelledNeverAdopted(Step(s, es[0]), es[1..]);
    }
  }

  /** The caches catch up, and the secret is adopted with the data it has. */
  lemma AdoptsLabelled(s: State, o: User, v: SecretVersion) returns (es: seq<Event>)
    requires Well(s) && Last(s.hist) == Present(o) && !o.marked && o.spec.imports.None?
    requires CurrentSecret(s, Generated(s)) == v && v.SecretStored? && v.labelled && v.owner.None?
    requires Seen(s, Generated(s)) <= |SecretLog(s, Generated(s))|
    ensures AllUnaided(es, Generated(s))
    ensures CurrentSecret(Run(s, es), Generated(s)) == SecretStored(v.data, true, Some(o.uid), true)
  {
    es := CatchesUp(s, Generated(s));
    var rest := AdoptsFresh(Run(s, es), o, v);
    Join(s, es, rest, Generated(s));
    es := es + rest;
  }

  lemma AdoptsFresh(s: State, o: User, v: SecretVersion) returns (es: seq<Event>)
    requires Fresh(s, o) && o.spec.imports.None?
    requires CurrentSecret(s, Generated(s)) == v && v.SecretStored? && v.labelled && v.owner.None?
    ensures AllUnaided(es, Generated(s))
    ensures CurrentSecret(Run(s, es), Generated(s)) == SecretStored(v.data, true, Some(o.uid), true)
  {
    es := StartsDeclaring(s, o);
    var mid := Run(s, es);
    assert Cached(mid, Generated(s)) == v;
    var found := FindsSecret(mid, |mid.hist| - 1, v);
    Join(s, es, found, Generated(s));
    es := es + found;
  }

  /** A secret that nobody owns, found under the generated name, can become the User's exactly when it
      carries the label; then it keeps its data. */
  lemma AdoptedExactly(s: State, o: User, v: SecretVersion)
    requires Well(s) && Last(s.hist) == Present(o) && !o.marked && o.spec.imports.None?
    requires CurrentSecret(s, Generated(s)) == v && v.SecretStored? && v.owner.None?
    requires Seen(s, Generated(s)) <= |SecretLog(s, Generated(s))|
    ensures (exists es :: AllUnaided(es, Generated(s))
                          && CurrentSecret(Run(s, es), Generated(s)) == SecretStored(v.data, true, Some(o.uid), true))
            <==> v.labelled
  {
    if v.labelled {
      var es := AdoptsLabelled(s, o, v);
    } else {
      forall es | AllUnaided(es, Generated(s))
        ensures CurrentSecret(Run(s, es), Generated(s)) == v
      {
        UnlabelledNeverAdopted(s, es);
      }
    }
  }

  // ---------------------------------------------------------------- which Users can be declared

  /** The spec takes its username from one place, and its secret is usable, or is still to be
      generated. */
  predicate Declarable(s: State, o: User) {
    var v := CurrentSecret(s, SecretOf(s, o.spec));
    && !(o.spec.fromMeta && o.spec.imports.Some?)
    && (Usable(s, o, v) || (o.spec.imports.None? && v.NoSecret?))
  }

  /** The same User, unmarked, with the same spec. */
  predicate Same(snap: Snapshot, o: User) {
    snap.Present? && snap.obj.uid == o.uid && snap.obj.spec == o.spec && !snap.obj.marked
  }

  /** A version of the secret that is like v, but for the User having become its owner. */
  predicate Like(w: SecretVersion, v: SecretVersion, uid: nat) {
    if v.NoSecret? then w.NoSecret?
    else w.SecretStored? && w.data == v.data && w.labelled == v.labelled
         && (w.owner == v.owner || (v.owner.None? && w.owner == Some(uid)))
  }

  predicate Conflicting(spec: UserSpec) {
    spec.fromMeta && spec.imports.Some?
  }

  /** The data of v would be put. */
  predicate GoodData(s: State, o: User, v: SecretVersion) {
    v.SecretStored? && Acceptable(s, o.spec, v.data) && HasPassword(v.data)
  }

  /** All that the cache shows, or will come to show, of the secret is like v. */
  ghost predicate ShowsOnly(s: State, o: User, v: SecretVersion) {
    var log, n := SecretLog(s, SecretOf(s, o.spec)), Seen(s, SecretOf(s, o.spec));
    && n <= |log| && (n == 0 ==> log == [])
    && (forall i :: 0 <= i < |log| && n <= i + 1 ==> Like(log[i], v, o.uid))
    && (o.spec.imports.None? ==> log != [] && v.SecretStored?)
  }

  /** A User that is not declarable, in the middle of anything. */
  ghost predicate Barred(s: State, o: User, v: SecretVersion) {
    && Well(s) && (forall i :: s.cacheAt <= i < |s.hist| ==> Same(s.hist[i], o))
    && (Conflicting(o.spec) || (ShowsOnly(s, o, v) && !Usable(s, o, v)))
    && BarredPhase(s, o, v)
  }

  predicate BarredPhase(s: State, o: User, v: SecretVersion)
    requires Well(s)
  {
    s.phase.Idle? ||
    (&& Same(s.hist[s.phase.at], o)
     && match s.phase
        case Resolving(_) => true
        case Registering(_) => true
        case Crediting(_) => !Conflicting(o.spec) && o.spec.imports.None?
        case Fetching(_, name) =>
          !Conflicting(o.spec) && name == SecretOf(s, o.spec) && (o.spec.imports.None? ==> !GoodData(s, o, v))
        case Recording(_, _, data) => !Conflicting(o.spec) && !HasPassword(data)
        case Putting(_, _, data) => !Conflicting(o.spec) && !HasPassword(data)
        case Reporting(_, _) => true
        case _ => false)
  }

  /** What the cache shows of the secret is not good enough to be put. */
  lemma BarredFetch(s: State, o: User, v: SecretVersion)
    requires Barred(s, o, v) && s.phase.Fetching?
    ensures var w := Cached(s, s.phase.secret);
            w.SecretStored? && Acceptable(s, o.spec, w.data) ==> !HasPassword(w.data)
  {
  }

  /** declareCredentials does not get past such a secret, or leaves data that is not good enough. */
  lemma BarredCredit(s: State, o: User, v: SecretVersion, username: string, password: string, write: Write)
    requires Barred(s, o, v) && s.phase.Crediting?
    ensures Barred(CreditStep(s, s.phase.at, username, password, write), o, v)
    ensures CreditStep(s, s.phase.at, username, password, write).puts == s.puts
  {
    var name := Generated(s);
    var log := SecretLog(s, name);
    assert Like(log[|log|-1], v, o.uid);
    assert Seen(s, name) > 0 && Like(log[Seen(s, name) - 1], v, o.uid);
  }

  lemma BarredOthers(s: State, o: User, v: SecretVersion, e: Event)
    requires Barred(s, o, v) && Unaided(e, SecretOf(s, o.spec)) && ByOthers(e)
    ensures Barred(OthersStep(s, e), o, v) && OthersStep(s, e).puts == s.puts
  {
  }

  /** A version that says the same, appended, and another phase. */
  lemma BarredAppend(s: State, o: User, v: SecretVersion, snap: Snapshot, p: Phase)
    requires Barred(s, o, v) && Same(snap, o)
    requires var t := Append(s, snap).(phase := p); Well(t) && BarredPhase(t, o, v)
    ensures Barred(Append(s, snap).(phase := p), o, v)
  {
    var t := Append(s, snap).(phase := p);
    assert SecretLog(t, SecretOf(t, o.spec)) == SecretLog(s, SecretOf(s, o.spec));
  }

  lemma BarredRegister(s: State, o: User, v: SecretVersion, write: Write)
    requires Barred(s, o, v) && s.phase.Registering?
    ensures Barred(RegisterStep(s, s.phase.at, write), o, v)
  {
    var at := s.phase.at;
    if !write.Rejected? && at + 1 == |s.hist| {
      var snap := Present(s.hist[at].obj.(finalizer := true));
      BarredAppend(s, o, v, snap, RegisterStep(s, at, write).phase);
    }
  }

  lemma BarredRecord(s: State, o: User, v: SecretVersion, write: Write)
    requires Barred(s, o, v) && s.phase.Recording? && s.phase.data.username.Some?
    ensures Barred(RecordStep(s, s.phase.at, s.phase.secret, s.phase.data, write), o, v)
  {
    var at, name, data := s.phase.at, s.phase.secret, s.phase.data;
    var t := RecordStep(s, at, name, data, write);
    if |t.hist| > |s.hist| {
      BarredAppend(s, o, v, t.hist[|s.hist|], t.phase);
    }
  }

  lemma BarredReport(s: State, o: User, v: SecretVersion, write: Write)
    requires Barred(s, o, v) && s.phase.Reporting?
    ensures Barred(ReportStep(s, s.phase.at, s.phase.status, write), o, v)
  {
    var at := s.phase.at;
    if !write.Rejected? && at + 1 == |s.hist| {
      BarredAppend(s, o, v, Present(s.hist[at].obj.(status := s.phase.status)), Idle);
    }
  }

  lemma BarredPut(s: State, o: User, v: SecretVersion, call: Call)
    requires Barred(s, o, v) && s.phase.Putting? && s.phase.data.username.Some?
    ensures Barred(PutStep(s, s.phase.at, s.phase.secret, s.phase.data, call), o, v)
    ensures PutStep(s, s.phase.at, s.phase.secret, s.phase.data, call).puts == s.puts
  {
  }

  lemma BarredRead(s: State, o: User, v: SecretVersion, e: Event)
    requires Barred(s, o, v) && (s.phase.Idle? || s.phase.Resolving? || s.phase.Fetching?)
    ensures Barred(OperatorStep(s, e), o, v) && OperatorStep(s, e).puts == s.puts
  {
    if s.phase.Fetching? { BarredFetch(s, o, v); }
  }

  lemma BarredOperator(s: State, o: User, v: SecretVersion, e: Event)
    requires Barred(s, o, v)
    ensures Barred(OperatorStep(s, e), o, v) && OperatorStep(s, e).puts == s.puts
  {
    if OperatorStep(s, e) != s {
      match s.phase
      case Registering(_) => BarredRegister(s, o, v, e.write);
      case Crediting(_) => BarredCredit(s, o, v, e.username, e.password, e.write);
      case Recording(_, _, _) => BarredRecord(s, o, v, e.write);
      case Putting(_, _, _) => BarredPut(s, o, v, e.call);
      case Reporting(_, _) => BarredReport(s, o, v, e.write);
      case _ => BarredRead(s, o, v, e);
    }
  }

  lemma {:induction false} BarredForever(s: State, o: User, v: SecretVersion, es: seq<Event>)
    requires Barred(s, o, v) && AllUnaided(es, SecretOf(s, o.spec))
    ensures Run(s, es).puts == s.puts
    decreases |es|
  {
    if es != [] {
      assert es[0] in es;
      if ByOthers(es[0]) { BarredOthers(s, o, v, es[0]); } else { BarredOperator(s, o, v, es[0]); }
      BarredForever(Step(s, es[0]), o, v, es[1..]);
    }
  }

  /** A User can be declared, with nobody editing it or its secret, exactly when its username comes from
      one place and the latest version of its secret
      - for an import: carries the label, and has a username and a hash or a password;
      - otherwise: is absent; or carries the label, is nobody's or this User's, and has a username,
        which is the User's name if that is asked for, and a hash or a password.
      (A resource has a name.) */
  lemma DeclarableExactly(s: State, o: User)
    requires Fresh(s, o) && s.meta != ""
    ensures (exists es :: AllUnaided(es, SecretOf(s, o.spec)) && Run(s, es).puts != s.puts) <==>
              match o.spec.imports
              case Some(name) =>
                && !o.spec.fromMeta && var v := CurrentSecret(s, name);
                && v.SecretStored? && v.labelled && v.data.username.Some? && v.data.username.value != ""
                && (v.data.hash.Some? || (v.data.password.Some? && v.data.password.value != ""))
              case None =>
                var v := CurrentSecret(s, s.meta + "-user-credentials");
                v.SecretStored? ==>
                  && v.labelled && (v.owner.None? || v.owner == Some(o.uid))
                  && v.data.username.Some? && v.data.username.value != "" && (o.spec.fromMeta ==> v.data.username.value == s.meta)
                  && (v.data.hash.Some? || (v.data.password.Some? && v.data.password.value != ""))
  {
    var name := SecretOf(s, o.spec);
    var v := CurrentSecret(s, name);
    if Declarable(s, o) {
      var es;
      if Usable(s, o, v) {
        es := RotationReachesBroker(s, o, v);
      } else {
        es := GenerationReachesBroker(s, o, "u", "p");
      }
      assert |Run(s, es).puts| > |s.puts|;
    } else {
      forall es | AllUnaided(es, name) ensures Run(s, es).puts == s.puts {
        BarredForever(s, o, v, es);
      }
    }
  }

  // ---------------------------------------------------------------- what is reported

  ghost predicate HasPut(puts: seq<Put>, uid: nat) {
    exists k :: 0 <= k < |puts| && puts[k].uid == uid
  }

  /** Ready is stored, or about to be, for Users that were put. */
  ghost predicate ReadySound(s: State)
    requires Well(s)
  {
    && (forall i :: 0 <= i < |s.hist| && s.hist[i].Present? && s.hist[i].obj.status.ready == Some(true) ==>
          HasPut(s.puts, s.hist[i].obj.uid))
    && (s.phase.Limiting? || (s.phase.Reporting? && s.phase.status.ready == Some(true)) ==>
          HasPut(s.puts, s.hist[s.phase.at].obj.uid))
  }

  lemma HasPutGrows(puts: seq<Put>, p: Put)
    ensures HasPut(puts + [p], p.uid)
    ensures forall uid :: HasPut(puts, uid) ==> HasPut(puts + [p], uid)
  {
    assert (puts + [p])[|puts|] == p;
    forall uid | HasPut(puts, uid) ensures HasPut(puts + [p], uid) {
      var k :| 0 <= k < |puts| && puts[k].uid == uid;
      assert (puts + [p])[k] == puts[k];
    }
  }

  lemma ReadyPutStep(s: State, e: Event)
    requires Well(s) && ReadySound(s) && s.phase.Putting?
    ensures ReadySound(OperatorStep(s, e))
  {
    HasPutGrows(s.puts, Put(s.hist[s.phase.at].obj.uid, s.phase.secret, s.phase.data));
  }

  /** The steps that store nothing of the User. */
  lemma ReadyQuietStep(s: State, e: Event)
    requires Well(s) && ReadySound(s)
    requires s.phase.Idle? || s.phase.Resolving? || s.phase.Crediting? || s.phase.Fetching? || s.phase.Limiting? || s.phase.Deleting?
    ensures ReadySound(OperatorStep(s, e))
  {
    var t := OperatorStep(s, e);
    assert t.hist == s.hist && t.puts == s.puts;
  }

  /** A version with the status of one that was there, or with one that is sound. */
  lemma ReadyAppend(s: State, t: State, snap: Snapshot)
    requires Well(s) && ReadySound(s) && Well(t) && t.hist == s.hist + [snap] && t.puts == s.puts
    requires snap.Present? && snap.obj.status.ready == Some(true) ==> HasPut(s.puts, snap.obj.uid)
    requires !t.phase.Limiting? && !(t.phase.Reporting? && t.phase.status.ready == Some(true))
    ensures ReadySound(t)
  {
  }

  lemma ReadyStoringStep(s: State, e: Event)
    requires Well(s) && ReadySound(s)
    requires s.phase.Registering? || s.phase.Recording? || s.phase.Reporting? || s.phase.Releasing?
    ensures ReadySound(OperatorStep(s, e))
  {
    var t := OperatorStep(s, e);
    if |t.hist| > |s.hist| {
      ReadyAppend(s, t, t.hist[|s.hist|]);
    }
  }

  lemma ReadyOperatorStep(s: State, e: Event)
    requires Well(s) && ReadySound(s)
    ensures ReadySound(OperatorStep(s, e))
  {
    if s.phase.Putting? {
      ReadyPutStep(s, e);
    } else if s.phase.Registering? || s.phase.Recording? || s.phase.Reporting? || s.phase.Releasing? {
      ReadyStoringStep(s, e);
    } else {
      ReadyQuietStep(s, e);
    }
  }

  lemma ReadyOthersStep(s: State, e: Event)
    requires Well(s) && ReadySound(s)
    ensures ReadySound(OthersStep(s, e))
  {
    assert Last(s.hist) == s.hist[|s.hist|-1];
  }

  lemma {:induction false} ReadyRun(s: State, es: seq<Event>)
    requires Well(s) && ReadySound(s)
    ensures ReadySound(Run(s, es))
    decreases |es|
  {
    if es != [] {
      if ByOthers(es[0]) {
        ReadyOthersStep(s, es[0]);
      } else {
        ReadyOperatorStep(s, es[0]);
      }
      ReadyRun(Step(s, es[0]), es[1..]);
    }
  }

  /** In every run a User stored as Ready was put in the broker. */
  lemma ReadyMeansPut(s: State, es: seq<Event>, i: nat)
    requires Start(s) && i < |Run(s, es).hist| && Run(s, es).hist[i].Present? && Run(s, es).hist[i].obj.status.ready == Some(true)
    ensures HasPut(Run(s, es).puts, Run(s, es).hist[i].obj.uid)
  {
    ReadyRun(s, es);
  }

  /** The object as it was, but NotReady. */
  predicate NotReadyNow(snap: Snapshot, o: User) {
    snap == Present(o.(status := o.status.(ready := Some(false))))
  }

  lemma StoresReport(s: State)
    requires Well(s) && s.phase.Reporting? && s.phase.at + 1 == |s.hist|
    ensures Step(s, Reports(Stored)) == s.(hist := s.hist + [Present(Last(s.hist).obj.(status := s.phase.status))], phase := Idle)
  {
  }

  /** PutUser failed, or looked failed: NotReady. */
  lemma PutFailureIsReported(s: State, call: Call)
    requires Well(s) && s.phase.Putting? && s.phase.at + 1 == |s.hist| && s.phase.data.username.Some? && !call.Done?
    ensures NotReadyNow(Last(Step(Step(s, Puts(call)), Reports(Stored)).hist), s.hist[s.phase.at].obj)
  {
    var t := Step(s, Puts(call));
    assert t.hist == s.hist && t.phase == Reporting(s.phase.at, s.hist[s.phase.at].obj.status.(ready := Some(false)));
    StoresReport(t);
  }

  /** The limits could not be set: NotReady, although the user is there. */
  lemma LimitFailureIsReported(s: State)
    requires Well(s) && s.phase.Limiting? && s.phase.at + 1 == |s.hist|
    ensures NotReadyNow(Last(Step(Step(s, Limits(false)), Reports(Stored)).hist), s.hist[s.phase.at].obj)
  {
    var t := Step(s, Limits(false));
    assert t.hist == s.hist && t.phase == Reporting(s.phase.at, s.hist[s.phase.at].obj.status.(ready := Some(false)));
    StoresReport(t);
  }

  /** A reconcile of the current version, up to this answer about its cluster. */
  lemma ReachesAnswer(s: State, r: Resolution) returns (es: seq<Event>)
    requires Well(s) && Last(s.hist).Present?
    ensures es == [Crash, CacheAdvances(|s.hist| - 1), Reads, Resolves(r)]
    ensures Run(s, es) == s.(cacheAt := |s.hist| - 1, phase := AfterResolution(s, |s.hist| - 1, r))
  {
    var at := |s.hist| - 1;
    RunThenStep(s, [], Crash);
    es := [] + [Crash];
    RunThenStep(s, es, CacheAdvances(at));
    es := es + [CacheAdvances(at)];
    var m := s.(cacheAt := at, phase := Idle);
    assert Run(s, es) == m;
    RunThenStep(s, es, Reads);
    es := es + [Reads];
    assert Run(s, es) == m.(phase := Resolving(at));
    RunThenStep(s, es, Resolves(r));
    es := es + [Resolves(r)];
  }

  /** From any state: a reference that is not allowed or cannot be used, and for an unmarked User a cluster
      at zero, is reported as NotReady and changes nothing else. */
  lemma UnusableIsReported(s: State, r: Resolution)
    requires Well(s) && Last(s.hist).Present?
    requires r.NotAllowed? || r.OtherError? || (r.AtZero? && !Last(s.hist).obj.marked)
    ensures var t := Run(s, [Crash, CacheAdvances(|s.hist| - 1), Reads, Resolves(r)] + [Reports(Stored)]);
            && NotReadyNow(Last(t.hist), Last(s.hist).obj)
            && t.users == s.users && t.puts == s.puts && t.secrets == s.secrets && t.released == s.released && t.phase.Idle?
  {
    var es := ReachesAnswer(s, r);
    RunThenStep(s, es, Reports(Stored));
    StoresReport(s.(cacheAt := |s.hist| - 1, phase := Reporting(|s.hist| - 1, Last(s.hist).obj.status.(ready := Some(false)))));
  }

  lemma StoresRelease(s: State)
    requires Well(s) && s.phase.Releasing? && s.phase.at + 1 == |s.hist| && s.phase.forced
    ensures var o := Last(s.hist).obj;
            Step(s, Releases(Stored)) == s.(hist := s.hist + [Gone(o.uid, o.status.username)], phase := Idle,
                                           released := s.released + {o.uid})
  {
  }

  /** From any state: a marked User whose cluster is reported missing or at zero is released, and the
      broker left alone. */
  lemma ReleasedWithoutDeletion(s: State, r: Resolution)
    requires Well(s) && Last(s.hist).Present? && Last(s.hist).obj.marked && (r.NoSuchCluster? || r.AtZero?)
    ensures var t := Run(s, [Crash, CacheAdvances(|s.hist| - 1), Reads, Resolves(r)] + [Releases(Stored)]);
            var o := Last(s.hist).obj;
            && Last(t.hist) == Gone(o.uid, o.status.username) && t.users == s.users && t.released == s.released + {o.uid}
  {
    var es := ReachesAnswer(s, r);
    RunThenStep(s, es, Releases(Stored));
    StoresRelease(s.(cacheAt := |s.hist| - 1, phase := Releasing(|s.hist| - 1, true)));
  }

  /** The reconcile of o that began in s ended with NotReady, and nothing was put. */
  predicate Reported(s: State, t: State, o: User) {
    && Well(t) && t.puts == s.puts && t.phase.Idle?
    && Last(t.hist).Present? && Last(t.hist).obj.uid == o.uid && Last(t.hist).obj.spec == o.spec
    && Last(t.hist).obj.status.ready == Some(false)
  }

  /** A reconcile of o is about to report a failure. */
  predicate AtFailure(s: State, t: State, o: User) {
    && Well(t) && t.puts == s.puts && t.phase.Reporting? && t.phase.at + 1 == |t.hist| && t.phase.status.ready == Some(false)
    && Last(t.hist).obj.uid == o.uid && Last(t.hist).obj.spec == o.spec
  }

  lemma ReportsFailure(s: State, es: seq<Event>, o: User, name: string) returns (fs: seq<Event>)
    requires Well(s) && AllUnaided(es, name) && AtFailure(s, Run(s, es), o)
    ensures AllUnaided(fs, name) && Reported(s, Run(s, fs), o)
  {
    RunThenStep(s, es, Reports(Stored));
    StoresReport(Run(s, es));
    fs := es + [Reports(Stored)];
  }

  /** The secret cannot be read or its data does not pass the checks. */
  lemma FetchFails(s: State, at: nat, name: string) returns (es: seq<Event>)
    requires Well(s) && at + 1 == |s.hist| && s.phase == Fetching(at, name)
    requires Cached(s, name).NoSecret? || !Acceptable(s, Last(s.hist).obj.spec, Cached(s, name).data)
    ensures AllUnaided(es, name) && AtFailure(s, Run(s, es), Last(s.hist).obj)
  {
    RunThenStep(s, [], Fetches(false));
    es := [] + [Fetches(false)];
  }

  /** The data passes the checks, but there is nothing to log in with. */
  lemma SettingsFail(s: State, at: nat, name: string, v: SecretVersion) returns (es: seq<Event>)
    requires Well(s) && at + 1 == |s.hist| && s.phase == Fetching(at, name) && v.SecretStored? && Cached(s, name) == v
    requires Acceptable(s, Last(s.hist).obj.spec, v.data) && !HasPassword(v.data)
    ensures AllUnaided(es, name) && AtFailure(s, Run(s, es), Last(s.hist).obj)
  {
    es := RecordsUsername(s, at, name, v);
    RunThenStep(s, es, Puts(Done));
    es := es + [Puts(Done)];
  }

  /** declareCredentials cannot have the secret. */
  lemma CreditFails(s: State, at: nat, v: SecretVersion) returns (es: seq<Event>)
    requires Well(s) && at + 1 == |s.hist| && s.phase == Crediting(at) && v.SecretStored?
    requires CurrentSecret(s, Generated(s)) == v && Seen(s, Generated(s)) == |SecretLog(s, Generated(s))|
    requires !v.labelled || v.owner !in [None, Some(s.hist[at].obj.uid)]
    ensures AllUnaided(es, Generated(s)) && AtFailure(s, Run(s, es), Last(s.hist).obj)
  {
    RunThenStep(s, [], Credits("", "", Stored));
    es := [] + [Credits("", "", Stored)];
  }

  /** From the credentials on, with a generated secret that is not usable. */
  lemma GeneratedFails(s: State, mid: State, o: User, v: SecretVersion) returns (es: seq<Event>)
    requires Fresh(s, o) && o.spec.imports.None? && AtCredentials(s, mid, o)
    requires CurrentSecret(s, Generated(s)) == v && v.SecretStored? && !Usable(s, o, v)
    ensures Well(mid) && AllUnaided(es, Generated(s)) && AtFailure(s, Run(mid, es), o)
  {
    var at, name := |mid.hist| - 1, Generated(s);
    if !v.labelled || v.owner !in [None, Some(o.uid)] {
      es := CreditFails(mid, at, v);
    } else {
      assert Cached(mid, name) == v;
      es := FindsSecret(mid, at, v);
      var next := Run(mid, es);
      assert Cached(next, name) == v;
      var rest;
      if Acceptable(s, o.spec, v.data) {
        rest := SettingsFail(next, at, name, v);
      } else {
        rest := FetchFails(next, at, name);
      }
      Join(mid, es, rest, name);
      es := es + rest;
    }
  }

  /** From the start of DeclareFunc, with a spec or a secret that is not good enough. */
  lemma DeclareFuncFails(s: State, o: User) returns (es: seq<Event>)
    requires Fresh(s, o) && s.meta != "" && !Declarable(s, o)
    ensures AllUnaided(es, SecretOf(s, o.spec)) && AtFailure(s, Run(s, es), o)
  {
    var name := SecretOf(s, o.spec);
    es := StartsDeclareFunc(s, o);
    if Conflicting(o.spec) {
      return;
    }
    var mid := Run(s, es);
    var rest;
    if o.spec.imports.Some? {
      rest := FetchFails(mid, |mid.hist| - 1, name);
    } else {
      rest := GeneratedFails(s, mid, o, CurrentSecret(s, name));
    }
    Join(s, es, rest, name);
    es := es + rest;
  }

  /** A User that cannot be declared is told so: one undisturbed reconcile leaves it NotReady. */
  lemma UndeclarableIsReported(s: State, o: User) returns (es: seq<Event>)
    requires Fresh(s, o) && s.meta != "" && !Declarable(s, o)
    ensures AllUnaided(es, SecretOf(s, o.spec)) && Reported(s, Run(s, es), o)
  {
    var failed := DeclareFuncFails(s, o);
    es := ReportsFailure(s, failed, o, SecretOf(s, o.spec));
  }

  /** The status is written only when it does not already name this username and this secret. */
  lemma StatusWrittenOnlyWhenMoved(s: State, at: nat, name: string, data: SecretData)
    requires Copy(s.hist, at) && at + 1 == |s.hist| && data.username.Some?
    ensures var status := s.hist[at].obj.status;
            |RecordStep(s, at, name, data, Stored).hist| > |s.hist| <==>
              status.credentials != Some(name) || status.username != data.username.value
  {
  }
}
