/** Credentials of a User, over whole runs: the generated secret, secrets supplied by others, the
    User's status and the broker's users, with a lagging cache for each kind of object. As in
    FinalizerProtocol, a stored version's index is its resource version, each call of the operator
    is one event with its outcome, and disabled events change nothing. */
module UserCredentials {
  import opened Types

  // ---------------------------------------------------------------- objects

  /** `imports` is spec.importCredentialsSecret, `fromMeta` is spec.usernameFromMeta. */
  datatype UserSpec = UserSpec(imports: Option<string>, fromMeta: bool)

  datatype UserStatus = UserStatus(username: string, credentials: Option<string>, ready: Option<bool>)

  /** `uid` numbers the successive Users that had this name. */
  datatype User = User(uid: nat, spec: UserSpec, marked: bool, finalizer: bool, status: UserStatus)

  /** A removed User remembers its uid and the username its status last had. */
  datatype Snapshot = Gone(last: nat, final: string) | Present(obj: User)

  function UidOf(s: Snapshot): nat {
    if s.Gone? then s.last else s.obj.uid
  }

  function NameOf(s: Snapshot): string {
    if s.Gone? then s.final else s.obj.status.username
  }

  /** The data of a secret: each key may be missing. */
  datatype SecretData = SecretData(username: Option<string>, password: Option<string>, hash: Option<string>)

  /** `labelled` secrets only are in the cache; `owner` is the uid in the controller reference. */
  datatype SecretVersion = NoSecret | SecretStored(data: SecretData, labelled: bool, owner: Option<nat>, byOperator: bool)

  /** What PutUser was sent, for which User, and the secret it was read from. */
  datatype Put = Put(uid: nat, secret: string, data: SecretData)

  datatype Phase =
    | Idle
    | Resolving(at: nat)
    | Registering(at: nat)
    | Crediting(at: nat)
    | Fetching(at: nat, secret: string)
    | Recording(at: nat, secret: string, data: SecretData)
    | Putting(at: nat, secret: string, data: SecretData)
    | Limiting(at: nat)
    | Reporting(at: nat, status: UserStatus)
    | Deleting(at: nat)
    | Releasing(at: nat, forced: bool)

  datatype State = State(
    meta: string,                             // metadata.name
    hist: seq<Snapshot>,
    cacheAt: nat,
    secrets: map<string, seq<SecretVersion>>,
    secretAt: map<string, nat>,               // how many versions of a secret the cache has been shown
    users: map<string, nat>,                  // usernames the operator put in the broker, and for which uid
    puts: seq<Put>,
    released: set<nat>,                       // uids released because the cluster is missing or at zero
    phase: Phase)

  datatype Call = Done | Refused | DoneUnseen
  datatype Write = Stored | Rejected | StoredUnseen
  datatype Resolution = Resolved | NoSuchCluster | AtZero | NotAllowed | OtherError

  datatype Event =
    | UserCreates(spec: UserSpec)
    | UserUpdates(spec: UserSpec)
    | UserTouches
    | UserDeletes
    | CacheAdvances(to: nat)
    | SecretEdited(name: string, data: SecretData, labelled: bool, owner: Option<nat>)
    | SecretDeleted(name: string)
    | SecretCacheAdvances(name: string, to: nat)
    | BrokerForgets(user: string)
    | Crash
    | Reads
    | Resolves(r: Resolution)
    | Registers(write: Write)
    | Credits(username: string, password: string, write: Write)
    | Fetches(fails: bool)
    | Records(write: Write)
    | Puts(call: Call)
    | Limits(ok: bool)
    | Reports(write: Write)
    | Deletes(call: Call)
    | Releases(write: Write)

  ghost predicate Start(s: State) {
    && (exists spec :: s.hist == [Present(User(1, spec, false, false, UserStatus("", None, None)))])
    && s.cacheAt == 0 && s.users == map[] && s.puts == [] && s.released == {} && s.phase.Idle?
    && (forall n, i :: n in s.secrets && 0 <= i < |s.secrets[n]| ==> s.secrets[n][i].SecretStored? ==> !s.secrets[n][i].byOperator)
  }

  predicate Copy(hist: seq<Snapshot>, at: nat) {
    at < |hist| && hist[at].Present?
  }

  predicate Well(s: State) {
    |s.hist| > 0 && s.cacheAt < |s.hist| && (s.phase.Idle? || Copy(s.hist, s.phase.at))
  }

  function Last(hist: seq<Snapshot>): Snapshot
    requires |hist| > 0
  {
    hist[|hist|-1]
  }

  function Append(s: State, snap: Snapshot): State {
    s.(hist := s.hist + [snap])
  }

  function Generated(s: State): string {
    s.meta + "-user-credentials"
  }

  /** The secret a spec takes its credentials from. */
  function SecretOf(s: State, spec: UserSpec): string {
    if spec.imports.Some? then spec.imports.value else Generated(s)
  }

  function SecretLog(s: State, name: string): seq<SecretVersion> {
    if name in s.secrets then s.secrets[name] else []
  }

  function CurrentSecret(s: State, name: string): SecretVersion {
    var log := SecretLog(s, name);
    if log == [] then NoSecret else log[|log|-1]
  }

  function StoreSecret(s: State, name: string, v: SecretVersion): State {
    s.(secrets := s.secrets[name := SecretLog(s, name) + [v]])
  }

  /** How many versions of the secret the cache has been shown. */
  function Seen(s: State, name: string): nat {
    if name in s.secretAt then s.secretAt[name] else 0
  }

  /** A read through the cache: a version the cache holds, if it is labelled. */
  function Cached(s: State, name: string): SecretVersion {
    var log, n := SecretLog(s, name), Seen(s, name);
    if 0 < n <= |log| && log[n-1].SecretStored? && log[n-1].labelled then log[n-1] else NoSecret
  }

  /** What every step leaves alone. */
  predicate Grows(s: State, t: State) {
    && s.hist <= t.hist && t.meta == s.meta && s.cacheAt <= t.cacheAt
    && (t.phase.Idle? || Copy(t.hist, t.phase.at))
  }

  // ---------------------------------------------------------------- others

  function OthersStep(s: State, e: Event): (t: State)
    requires Well(s)
    ensures Well(t) && Grows(s, t)
  {
    var last := Last(s.hist);
    match e
    case UserCreates(spec) =>
      if last.Gone? then Append(s, Present(User(last.last + 1, spec, false, false, UserStatus("", None, None)))) else s
    case UserUpdates(spec) =>
      if last.Present? && (last.obj.marked || !(spec.fromMeta && spec.imports.Some?))
      then Append(s, Present(last.obj.(spec := spec))) else s
    case UserTouches => if last.Present? then Append(s, last) else s
    case UserDeletes =>
      if last.Gone? || last.obj.marked then s
      else if last.obj.finalizer then Append(s, Present(last.obj.(marked := true)))
      else Append(s, Gone(last.obj.uid, last.obj.status.username))
    case CacheAdvances(to) => if s.cacheAt <= to < |s.hist| then s.(cacheAt := to) else s
    case SecretEdited(name, data, labelled, owner) => StoreSecret(s, name, SecretStored(data, labelled, owner, false))
    case SecretDeleted(name) => StoreSecret(s, name, NoSecret)
    case SecretCacheAdvances(name, to) =>
      if Seen(s, name) <= to <= |SecretLog(s, name)| then s.(secretAt := s.secretAt[name := to]) else s
    case BrokerForgets(user) => s.(users := s.users - {user})
    case Crash => s.(phase := Idle)
    case _ => s
  }

  // ---------------------------------------------------------------- the operator

  function AfterResolution(s: State, at: nat, r: Resolution): Phase
    requires Copy(s.hist, at)
  {
    var o := s.hist[at].obj;
    match r
    case NoSuchCluster => if o.marked then Releasing(at, true) else Idle
    case AtZero => if o.marked then Releasing(at, true) else Failed(s, at, o.status)
    case NotAllowed => Failed(s, at, o.status)
    case OtherError => Failed(s, at, o.status)
    case Resolved => if o.marked then Deleting(at) else if !o.finalizer then Registering(at) else Declaring(s, at)
  }

  /** DeclareFunc returned an error: NotReady is reported, on whatever status is in memory. */
  function Failed(s: State, at: nat, status: UserStatus): Phase {
    Reporting(at, status.(ready := Some(false)))
  }

  /** The first step of DeclareFunc. */
  function Declaring(s: State, at: nat): Phase
    requires Copy(s.hist, at)
  {
    var spec := s.hist[at].obj.spec;
    if spec.fromMeta && spec.imports.Some? then Failed(s, at, s.hist[at].obj.status)
    else if spec.imports.Some? then Fetching(at, spec.imports.value)
    else Crediting(at)
  }

  function RegisterStep(s: State, at: nat, write: Write): (t: State)
    requires Copy(s.hist, at)
    ensures Grows(s, t) && t.cacheAt == s.cacheAt
  {
    if write.Rejected? || at + 1 != |s.hist| then s.(phase := Idle)
    else
      var next := Append(s, Present(s.hist[at].obj.(finalizer := true)));
      next.(phase := if write.Stored? then Declaring(next, |s.hist|) else Idle)
  }

  /** declareCredentials: CreateOrUpdate of the generated secret, with fresh credentials that are
      stored only if there is no secret yet. */
  function CreditStep(s: State, at: nat, username: string, password: string, write: Write): (t: State)
    requires Copy(s.hist, at)
    ensures Grows(s, t) && t.cacheAt == s.cacheAt
  {
    var name, uid := Generated(s), s.hist[at].obj.uid;
    var failed := s.(phase := Failed(s, at, s.hist[at].obj.status));
    var next := s.(phase := Fetching(at, name));
    match Cached(s, name)
    case SecretStored(data, _, owner, _) =>
      if write.Rejected? || (owner.Some? && owner.value != uid) then failed     // another controller owns it
      else if owner.Some? then next
      else if Seen(s, name) != |SecretLog(s, name)| then s.(phase := Crediting(at))   // a conflict is retried on a new read
      else StoreSecret(if write.Stored? then next else failed, name, SecretStored(data, true, Some(uid), true))
    case NoSecret =>
      if write.Rejected? || CurrentSecret(s, name).SecretStored? then failed
      else
        var issued := SecretData(Some(if s.hist[at].obj.spec.fromMeta then s.meta else username), Some(password), None);
        StoreSecret(if write.Stored? then next else failed, name, SecretStored(issued, true, Some(uid), true))
  }

  /** The checks made on the credentials that were read, for a generated and for an imported secret. */
  predicate Acceptable(s: State, spec: UserSpec, data: SecretData) {
    && data.username.Some? && data.username.value != ""
    && (spec.imports.None? && spec.fromMeta ==> data.username.value == s.meta)
    && (spec.imports.Some? ==> data.hash.Some? || (data.password.Some? && data.password.value != ""))
  }

  /** getUserCredentials and importCredentials. */
  function FetchStep(s: State, at: nat, name: string, fails: bool): (t: State)
    requires Copy(s.hist, at)
    ensures Grows(s, t) && t.cacheAt == s.cacheAt
  {
    var v := Cached(s, name);
    if fails || v.NoSecret? || !Acceptable(s, s.hist[at].obj.spec, v.data)
    then s.(phase := Failed(s, at, s.hist[at].obj.status))
    else s.(phase := Recording(at, name, v.data))
  }

  /** setUserStatus, when the status does not already say so. */
  function RecordStep(s: State, at: nat, name: string, data: SecretData, write: Write): (t: State)
    requires Copy(s.hist, at) && data.username.Some?
    ensures Grows(s, t) && t.cacheAt == s.cacheAt
  {
    var o := s.hist[at].obj;
    var status := o.status.(username := data.username.value, credentials := Some(name));
    if o.status == status then s.(phase := Putting(at, name, data))
    else if write.Rejected? || at + 1 != |s.hist| then s.(phase := Failed(s, at, status))
    else
      var next := Append(s, Present(o.(status := status)));
      next.(phase := if write.Stored? then Putting(|s.hist|, name, data) else Failed(s, at, status))
  }

  /** GenerateUserSettings fails on a secret with neither a hash nor a password; else PutUser. */
  function PutStep(s: State, at: nat, name: string, data: SecretData, call: Call): (t: State)
    requires Copy(s.hist, at) && data.username.Some?
    ensures Grows(s, t) && t.cacheAt == s.cacheAt
  {
    var failed := s.(phase := Failed(s, at, s.hist[at].obj.status));
    if data.hash.None? && (data.password.None? || data.password.value == "") then failed
    else if call.Refused? then failed
    else
      (if call.Done? then s.(phase := Limiting(at)) else failed)
      .(users := s.users[data.username.value := s.hist[at].obj.uid], puts := s.puts + [Put(s.hist[at].obj.uid, name, data)])
  }

  function ReportStep(s: State, at: nat, status: UserStatus, write: Write): (t: State)
    requires Copy(s.hist, at)
    ensures Grows(s, t) && t.cacheAt == s.cacheAt
  {
    (if write.Rejected? || at + 1 != |s.hist| then s else Append(s, Present(s.hist[at].obj.(status := status)))).(phase := Idle)
  }

  /** DeleteFunc skips a User whose status has no username. */
  function DeleteStep(s: State, at: nat, call: Call): (t: State)
    requires Copy(s.hist, at)
    ensures Grows(s, t) && t.cacheAt == s.cacheAt
  {
    var name := s.hist[at].obj.status.username;
    if name == "" then s.(phase := Releasing(at, false))
    else match call
      case Done => s.(users := s.users - {name}, phase := Releasing(at, false))
      case DoneUnseen => s.(users := s.users - {name}, phase := Idle)
      case Refused => s.(phase := Idle)
  }

  function ReleaseStep(s: State, at: nat, forced: bool, write: Write): (t: State)
    requires Copy(s.hist, at)
    ensures Grows(s, t) && t.cacheAt == s.cacheAt
  {
    if write.Rejected? || at + 1 != |s.hist| then s.(phase := Idle)
    else
      var o := s.hist[at].obj;
      Append(s, Gone(o.uid, o.status.username)).(phase := Idle, released := s.released + if forced then {o.uid} else {})
  }

  function OperatorStep(s: State, e: Event): (t: State)
    requires Well(s)
    ensures Well(t) && Grows(s, t)
  {
    match s.phase
    case Idle => if e.Reads? && s.hist[s.cacheAt].Present? then s.(phase := Resolving(s.cacheAt)) else s
    case Resolving(at) => if e.Resolves? then s.(phase := AfterResolution(s, at, e.r)) else s
    case Registering(at) => if e.Registers? then RegisterStep(s, at, e.write) else s
    case Crediting(at) => if e.Credits? then CreditStep(s, at, e.username, e.password, e.write) else s
    case Fetching(at, name) => if e.Fetches? then FetchStep(s, at, name, e.fails) else s
    case Recording(at, name, data) =>
      if e.Records? && data.username.Some? then RecordStep(s, at, name, data, e.write) else s
    case Putting(at, name, data) => if e.Puts? && data.username.Some? then PutStep(s, at, name, data, e.call) else s
    case Limiting(at) =>
      if e.Limits? then s.(phase := Reporting(at, s.hist[at].obj.status.(ready := Some(e.ok)))) else s
    case Reporting(at, status) => if e.Reports? then ReportStep(s, at, status, e.write) else s
    case Deleting(at) => if e.Deletes? then DeleteStep(s, at, e.call) else s
    case Releasing(at, forced) => if e.Releases? then ReleaseStep(s, at, forced, e.write) else s
  }

  predicate ByOthers(e: Event) {
    || e.UserCreates? || e.UserUpdates? || e.UserTouches? || e.UserDeletes? || e.CacheAdvances? || e.SecretEdited? || e.SecretDeleted?
    || e.SecretCacheAdvances? || e.BrokerForgets? || e.Crash?
  }

  function Step(s: State, e: Event): (t: State)
    requires Well(s)
    ensures Well(t) && Grows(s, t)
  {
    if ByOthers(e) then OthersStep(s, e) else OperatorStep(s, e)
  }

  // ---------------------------------------------------------------- the invariant

  /** What time does to a User: a mark stays and freezes the username; a username is never lost; and
      a successor has a larger uid. */
  predicate Later(a: Snapshot, b: Snapshot) {
    && UidOf(a) <= UidOf(b)
    && (UidOf(a) == UidOf(b) ==>
          && (a.Gone? ==> b == a)
          && (NameOf(a) != "" ==> NameOf(b) != "")
          && (a.Present? && a.obj.marked ==> NameOf(b) == NameOf(a) && (b.Present? ==> b.obj.marked)))
  }

  ghost predicate History(hist: seq<Snapshot>) {
    && |hist| > 0
    && (forall i, j :: 0 <= i <= j < |hist| ==> Later(hist[i], hist[j]))
    && (forall i :: 0 <= i < |hist| && hist[i].Present? && hist[i].obj.marked ==> hist[i].obj.finalizer)
  }

  predicate Held(hist: seq<Snapshot>, uid: nat)
    requires |hist| > 0
  {
    Last(hist).Present? && Last(hist).obj.uid == uid && Last(hist).obj.finalizer
  }

  ghost predicate Shown(hist: seq<Snapshot>, cacheAt: nat)
    requires |hist| > 0
  {
    forall i :: cacheAt <= i < |hist| && hist[i].Present? && hist[i].obj.finalizer && !hist[i].obj.marked ==>
      Held(hist, hist[i].obj.uid)
  }

  /** The username was in a stored status of this User at some time. */
  ghost predicate Persisted(hist: seq<Snapshot>, uid: nat, u: string) {
    exists i :: 0 <= i < |hist| && UidOf(hist[i]) == uid && NameOf(hist[i]) == u
  }

  /** This User is gone, and its last username was another one unless it was released. */
  ghost predicate LeftBehind(hist: seq<Snapshot>, released: set<nat>, uid: nat, u: string) {
    exists i :: 0 <= i < |hist| && hist[i].Gone? && hist[i].last == uid && (uid in released || hist[i].final != u)
  }

  ghost predicate UsersSound(hist: seq<Snapshot>, users: map<string, nat>, released: set<nat>)
    requires |hist| > 0
  {
    forall u :: u in users ==>
      u != "" && Persisted(hist, users[u], u) && (Held(hist, users[u]) || LeftBehind(hist, released, users[u], u))
  }

  /** No broker user is of a User newer than the one the cache shows or the reconcile works on. */
  ghost predicate Bounded(s: State)
    requires Well(s)
  {
    && (forall u :: u in s.users ==> s.users[u] <= UidOf(s.hist[s.cacheAt]))
    && (!s.phase.Idle? ==>
          && UidOf(s.hist[s.phase.at]) <= UidOf(s.hist[s.cacheAt])
          && forall u :: u in s.users ==> s.users[u] <= UidOf(s.hist[s.phase.at]))
  }

  /** The data was, at some time, what the API server stored under that name. */
  ghost predicate FromStore(secrets: map<string, seq<SecretVersion>>, name: string, data: SecretData) {
    name in secrets && exists i :: 0 <= i < |secrets[name]| && secrets[name][i].SecretStored? && secrets[name][i].data == data
  }

  ghost predicate PutsSound(hist: seq<Snapshot>, secrets: map<string, seq<SecretVersion>>, puts: seq<Put>) {
    forall k :: 0 <= k < |puts| ==>
      && FromStore(secrets, puts[k].secret, puts[k].data)
      && puts[k].data.username.Some? && puts[k].data.username.value != "" && Persisted(hist, puts[k].uid, puts[k].data.username.value)
      && (puts[k].data.hash.Some? || (puts[k].data.password.Some? && puts[k].data.password.value != ""))
  }

  /** The operator writes the generated secret only, and never changes stored data. */
  ghost predicate WriteOnce(secrets: map<string, seq<SecretVersion>>, generated: string) {
    forall n, i :: n in secrets && 0 <= i < |secrets[n]| && secrets[n][i].SecretStored? && secrets[n][i].byOperator ==>
      n == generated && (i > 0 && secrets[n][i-1].SecretStored? ==> secrets[n][i].data == secrets[n][i-1].data)
  }

  predicate OwnsUser(users: map<string, nat>, u: string, uid: nat) {
    u in users && users[u] == uid
  }

  ghost predicate PhaseSound(s: State)
    requires |s.hist| > 0 && s.cacheAt < |s.hist|
  {
    s.phase.Idle? ||
    (&& Copy(s.hist, s.phase.at)
     && var o := s.hist[s.phase.at].obj;
     && match s.phase
        case Resolving(at) => at <= s.cacheAt && (o.finalizer && !o.marked ==> Held(s.hist, o.uid))
        case Registering(at) => !o.marked
        case Crediting(at) => !o.marked && Held(s.hist, o.uid) && o.spec.imports.None?
        case Fetching(at, name) => !o.marked && Held(s.hist, o.uid) && name == SecretOf(s, o.spec)
        case Recording(at, name, data) =>
          && !o.marked && Held(s.hist, o.uid) && FromStore(s.secrets, name, data)
          && name == SecretOf(s, o.spec) && Acceptable(s, o.spec, data)
        case Putting(at, name, data) =>
          && !o.marked && Held(s.hist, o.uid) && FromStore(s.secrets, name, data)
          && name == SecretOf(s, o.spec) && Acceptable(s, o.spec, data)
          && o.status.username == data.username.value && o.status.credentials == Some(name)
        case Limiting(at) => !o.marked && Held(s.hist, o.uid)
        case Reporting(at, status) =>
          && (o.status.username != "" ==> status.username != "")
          && (o.marked ==> status.username == o.status.username)
        case Deleting(at) => o.marked && at <= s.cacheAt
        case Releasing(at, forced) => o.marked && at <= s.cacheAt && (forced || !OwnsUser(s.users, o.status.username, o.uid)))
  }

  ghost predicate Inv(s: State) {
    && Well(s) && History(s.hist) && Shown(s.hist, s.cacheAt) && Bounded(s)
    && UsersSound(s.hist, s.users, s.released) && PutsSound(s.hist, s.secrets, s.puts)
    && WriteOnce(s.secrets, Generated(s)) && PhaseSound(s)
  }

  // ---------------------------------------------------------------- every step keeps it

  lemma HistoryGrows(hist: seq<Snapshot>, snap: Snapshot)
    requires History(hist) && Later(Last(hist), snap)
    requires snap.Present? && snap.obj.marked ==> snap.obj.finalizer
    ensures History(hist + [snap])
  {
    var h := hist + [snap];
    forall i, j | 0 <= i <= j < |h| ensures Later(h[i], h[j]) {
      if j == |hist| && i < j { assert Later(hist[i], Last(hist)); }
    }
  }

  lemma PersistedGrows(hist: seq<Snapshot>, snap: Snapshot, uid: nat, u: string)
    requires Persisted(hist, uid, u)
    ensures Persisted(hist + [snap], uid, u)
  {
    var i :| 0 <= i < |hist| && UidOf(hist[i]) == uid && NameOf(hist[i]) == u;
    assert (hist + [snap])[i] == hist[i];
  }

  lemma LeftBehindGrows(hist: seq<Snapshot>, snap: Snapshot, released: set<nat>, released': set<nat>, uid: nat, u: string)
    requires LeftBehind(hist, released, uid, u) && released <= released'
    ensures LeftBehind(hist + [snap], released', uid, u)
  {
    var i :| 0 <= i < |hist| && hist[i].Gone? && hist[i].last == uid && (uid in released || hist[i].final != u);
    assert (hist + [snap])[i] == hist[i];
  }

  /** Whoever holds the finalizer still does. */
  predicate KeepsHold(hist: seq<Snapshot>, snap: Snapshot)
    requires |hist| > 0
  {
    Last(hist).Present? && Last(hist).obj.finalizer ==>
      snap.Present? && snap.obj.uid == Last(hist).obj.uid && snap.obj.finalizer
  }

  lemma UsersGrow(s: State, snap: Snapshot)
    requires Inv(s) && KeepsHold(s.hist, snap)
    ensures UsersSound(s.hist + [snap], s.users, s.released)
  {
    var h := s.hist + [snap];
    forall u | u in s.users
      ensures Persisted(h, s.users[u], u) && (Held(h, s.users[u]) || LeftBehind(h, s.released, s.users[u], u))
    {
      PersistedGrows(s.hist, snap, s.users[u], u);
      if !Held(s.hist, s.users[u]) {
        LeftBehindGrows(s.hist, snap, s.released, s.released, s.users[u], u);
      }
    }
  }

  lemma PutsGrow(s: State, snap: Snapshot)
    requires Inv(s)
    ensures PutsSound(s.hist + [snap], s.secrets, s.puts)
  {
    forall k | 0 <= k < |s.puts| ensures Persisted(s.hist + [snap], s.puts[k].uid, s.puts[k].data.username.value) {
      PersistedGrows(s.hist, snap, s.puts[k].uid, s.puts[k].data.username.value);
    }
  }

  /** A write that keeps the finalizer where it is. */
  lemma AppendKeeps(s: State, snap: Snapshot)
    requires Inv(s) && Later(Last(s.hist), snap) && KeepsHold(s.hist, snap)
    requires snap.Present? && snap.obj.marked ==> snap.obj.finalizer
    ensures Inv(Append(s, snap))
  {
    HistoryGrows(s.hist, snap);
    UsersGrow(s, snap);
    PutsGrow(s, snap);
    assert forall i :: 0 <= i < |s.hist| ==> (s.hist + [snap])[i] == s.hist[i];
  }

  lemma PhaseKeeps(s: State, p: Phase)
    requires Inv(s) && (p.Idle? || Copy(s.hist, p.at)) && PhaseSound(s.(phase := p)) && Bounded(s.(phase := p))
    ensures Inv(s.(phase := p))
  {
  }

  lemma FromStoreGrows(s: State, name: string, v: SecretVersion, n: string, data: SecretData)
    requires FromStore(s.secrets, n, data)
    ensures FromStore(StoreSecret(s, name, v).secrets, n, data)
  {
    var i :| 0 <= i < |s.secrets[n]| && s.secrets[n][i].SecretStored? && s.secrets[n][i].data == data;
    assert StoreSecret(s, name, v).secrets[n][i] == s.secrets[n][i];
  }

  /** A new version of a secret; the operator's own keep the data they replace. */
  lemma StoreKeeps(s: State, name: string, v: SecretVersion)
    requires Inv(s)
    requires v.SecretStored? && v.byOperator ==>
               name == Generated(s) && (CurrentSecret(s, name).SecretStored? ==> v.data == CurrentSecret(s, name).data)
    ensures Inv(StoreSecret(s, name, v))
  {
    var t := StoreSecret(s, name, v);
    forall k | 0 <= k < |s.puts| ensures FromStore(t.secrets, s.puts[k].secret, s.puts[k].data) {
      FromStoreGrows(s, name, v, s.puts[k].secret, s.puts[k].data);
    }
    if s.phase.Recording? || s.phase.Putting? {
      FromStoreGrows(s, name, v, s.phase.secret, s.phase.data);
    }
  }

  lemma UserKeeps(s: State, e: Event)
    requires Inv(s) && (e.UserCreates? || e.UserUpdates? || e.UserTouches? || e.UserDeletes?)
    ensures Inv(OthersStep(s, e))
  {
    var last := Last(s.hist);
    match last
    case Gone(uid, _) =>
      if e.UserCreates? {
        AppendKeeps(s, Present(User(uid + 1, e.spec, false, false, UserStatus("", None, None))));
      }
    case Present(o) =>
      match e
      case UserUpdates(spec) => AppendKeeps(s, Present(o.(spec := spec)));
      case UserTouches => AppendKeeps(s, last);
      case UserDeletes =>
        if !o.marked {
          AppendKeeps(s, if o.finalizer then Present(o.(marked := true)) else Gone(o.uid, o.status.username));
        }
      case UserCreates(_) =>
  }

  lemma CacheKeeps(s: State, to: nat)
    requires Inv(s) && s.cacheAt <= to < |s.hist|
    ensures Inv(s.(cacheAt := to))
  {
    assert Later(s.hist[s.cacheAt], s.hist[to]);
  }

  lemma OthersKeep(s: State, e: Event)
    requires Inv(s)
    ensures Inv(OthersStep(s, e))
  {
    match e
    case UserCreates(_) => UserKeeps(s, e);
    case UserUpdates(_) => UserKeeps(s, e);
    case UserTouches => UserKeeps(s, e);
    case UserDeletes => UserKeeps(s, e);
    case CacheAdvances(to) => if s.cacheAt <= to < |s.hist| { CacheKeeps(s, to); }
    case SecretEdited(name, data, labelled, owner) => StoreKeeps(s, name, SecretStored(data, labelled, owner, false));
    case SecretDeleted(name) => StoreKeeps(s, name, NoSecret);
    case BrokerForgets(user) => ForgetKeeps(s, user);
    case Crash => PhaseKeeps(s, Idle);
    case SecretCacheAdvances(name, to) => SecretCacheKeeps(s, s.secretAt[name := to]);
    case _ =>
  }

  lemma SecretCacheKeeps(s: State, secretAt: map<string, nat>)
    requires Inv(s)
    ensures Inv(s.(secretAt := secretAt))
  {
  }

  lemma RegisterKeeps(s: State, write: Write)
    requires Inv(s) && s.phase.Registering?
    ensures Inv(RegisterStep(s, s.phase.at, write))
  {
    var at := s.phase.at;
    if !write.Rejected? && at + 1 == |s.hist| {
      var o := s.hist[at].obj.(finalizer := true);
      AppendKeeps(s, Present(o));
      var t := Append(s, Present(o));
      assert t.hist[|s.hist|] == Present(o) && t.hist[at] == s.hist[at];
      PhaseKeeps(t, if write.Stored? then Declaring(t, |s.hist|) else Idle);
    }
  }

  /** The generated secret: created once, and otherwise only labelled and owned. */
  lemma CreditKeeps(s: State, username: string, password: string, write: Write)
    requires Inv(s) && s.phase.Crediting?
    ensures Inv(CreditStep(s, s.phase.at, username, password, write))
  {
    var at, name := s.phase.at, Generated(s);
    var failed := s.(phase := Failed(s, at, s.hist[at].obj.status));
    var next := s.(phase := Fetching(at, name));
    PhaseKeeps(s, failed.phase);
    PhaseKeeps(s, next.phase);
    var base := if write.Stored? then next else failed;
    match Cached(s, name)
    case SecretStored(data, _, owner, _) =>
      if !write.Rejected? && Seen(s, name) == |SecretLog(s, name)| {
        assert CurrentSecret(s, name).data == data;
        StoreKeeps(base, name, SecretStored(data, true, Some(s.hist[at].obj.uid), true));
      }
    case NoSecret =>
      if !write.Rejected? && CurrentSecret(s, name).NoSecret? {
        var issued := SecretData(Some(if s.hist[at].obj.spec.fromMeta then s.meta else username), Some(password), None);
        StoreKeeps(base, name, SecretStored(issued, true, Some(s.hist[at].obj.uid), true));
      }
  }

  lemma FetchKeeps(s: State, fails: bool)
    requires Inv(s) && s.phase.Fetching?
    ensures Inv(FetchStep(s, s.phase.at, s.phase.secret, fails))
  {
    var name := s.phase.secret;
    var v := Cached(s, name);
    if v.SecretStored? {
      assert s.secrets[name][Seen(s, name) - 1] == v;
      assert FromStore(s.secrets, name, v.data);
    }
    PhaseKeeps(s, FetchStep(s, s.phase.at, name, fails).phase);
  }

  lemma RecordKeeps(s: State, write: Write)
    requires Inv(s) && s.phase.Recording?
    ensures Inv(RecordStep(s, s.phase.at, s.phase.secret, s.phase.data, write))
  {
    var at, name, data := s.phase.at, s.phase.secret, s.phase.data;
    var o := s.hist[at].obj;
    var status := o.status.(username := data.username.value, credentials := Some(name));
    if o.status == status {
      PhaseKeeps(s, Putting(at, name, data));
    } else if write.Rejected? || at + 1 != |s.hist| {
      PhaseKeeps(s, Failed(s, at, status));
    } else {
      AppendKeeps(s, Present(o.(status := status)));
      var t := Append(s, Present(o.(status := status)));
      assert t.hist[|s.hist|] == Present(o.(status := status)) && t.hist[at] == s.hist[at];
      PhaseKeeps(t, if write.Stored? then Putting(|s.hist|, name, data) else Failed(s, at, status));
    }
  }

  /** The broker took the credentials of the User at hand. */
  lemma PutDoneKeeps(s: State)
    requires Inv(s) && s.phase.Putting?
    requires s.phase.data.hash.Some? || (s.phase.data.password.Some? && s.phase.data.password.value != "")
    ensures var o, data := s.hist[s.phase.at].obj, s.phase.data;
            Inv(s.(users := s.users[data.username.value := o.uid], puts := s.puts + [Put(o.uid, s.phase.secret, data)]))
  {
    var at, data := s.phase.at, s.phase.data;
    var u, uid := data.username.value, s.hist[at].obj.uid;
    assert NameOf(s.hist[at]) == u && Persisted(s.hist, uid, u);
    var t := s.(users := s.users[u := uid], puts := s.puts + [Put(uid, s.phase.secret, data)]);
    assert PutsSound(t.hist, t.secrets, t.puts);
    assert UsersSound(t.hist, t.users, t.released);
  }

  /** PutUser: the username sent is the one in the status of the version at hand. */
  lemma PutKeeps(s: State, call: Call)
    requires Inv(s) && s.phase.Putting?
    ensures Inv(PutStep(s, s.phase.at, s.phase.secret, s.phase.data, call))
  {
    var at, name, data := s.phase.at, s.phase.secret, s.phase.data;
    PhaseKeeps(s, Failed(s, at, s.hist[at].obj.status));
    if data.hash.Some? || (data.password.Some? && data.password.value != "") {
      var uid := s.hist[at].obj.uid;
      var t := s.(users := s.users[data.username.value := uid], puts := s.puts + [Put(uid, name, data)]);
      PutDoneKeeps(s);
      PhaseKeeps(t, Limiting(at));
      PhaseKeeps(t, Failed(t, at, t.hist[at].obj.status));
    }
  }

  lemma ReportKeeps(s: State, write: Write)
    requires Inv(s) && s.phase.Reporting?
    ensures Inv(ReportStep(s, s.phase.at, s.phase.status, write))
  {
    var at := s.phase.at;
    var o := s.hist[at].obj.(status := s.phase.status);
    if !write.Rejected? && at + 1 == |s.hist| {
      AppendKeeps(s, Present(o));
      PhaseKeeps(Append(s, Present(o)), Idle);
    }
  }

  /** A mark on a version without a username: no version of this User ever had one. */
  lemma NeverNamed(s: State, at: nat, i: nat)
    requires Inv(s) && Copy(s.hist, at) && s.hist[at].obj.marked && s.hist[at].obj.status.username == ""
    requires i < |s.hist| && UidOf(s.hist[i]) == s.hist[at].obj.uid
    ensures NameOf(s.hist[i]) == ""
  {
    if i <= at {
      assert Later(s.hist[i], s.hist[at]);
    } else {
      assert Later(s.hist[at], s.hist[i]);
    }
  }

  /** A marked User without a username in its status was never put in the broker. */
  lemma SkipIsSafe(s: State, at: nat)
    requires Inv(s) && Copy(s.hist, at) && s.hist[at].obj.marked && s.hist[at].obj.status.username == ""
    ensures forall u :: u in s.users ==> s.users[u] != s.hist[at].obj.uid
  {
    var uid := s.hist[at].obj.uid;
    forall i | 0 <= i < |s.hist| && UidOf(s.hist[i]) == uid ensures NameOf(s.hist[i]) == "" {
      NeverNamed(s, at, i);
    }
    assert forall u :: u in s.users ==> u != "" && Persisted(s.hist, s.users[u], u);
  }

  lemma ForgetKeeps(s: State, u: string)
    requires Inv(s)
    ensures Inv(s.(users := s.users - {u}))
  {
  }

  lemma DeleteKeeps(s: State, call: Call)
    requires Inv(s) && s.phase.Deleting?
    ensures Inv(DeleteStep(s, s.phase.at, call))
  {
    var at := s.phase.at;
    var name := s.hist[at].obj.status.username;
    if name == "" {
      assert "" !in s.users;
      PhaseKeeps(s, Releasing(at, false));
    } else {
      ForgetKeeps(s, name);
      PhaseKeeps(s.(users := s.users - {name}), Releasing(at, false));
    }
  }

  /** Once the finalizer goes, the cache has seen the mark. */
  lemma ShownAfterRelease(s: State, snap: Snapshot)
    requires Inv(s) && s.phase.Releasing? && s.phase.at + 1 == |s.hist| && snap.Gone?
    ensures Shown(s.hist + [snap], s.cacheAt)
  {
    forall i | s.cacheAt <= i < |s.hist| && s.hist[i].Present? ensures s.hist[i].obj.marked {
      assert Later(s.hist[s.phase.at], s.hist[i]) && Later(s.hist[i], Last(s.hist));
    }
  }

  /** Users of the released User are left behind under other names, or knowingly. */
  lemma UsersAfterRelease(s: State, snap: Snapshot, released: set<nat>)
    requires Inv(s) && s.phase.Releasing? && s.phase.at + 1 == |s.hist|
    requires var o := s.hist[s.phase.at].obj;
             snap == Gone(o.uid, o.status.username) && released == s.released + if s.phase.forced then {o.uid} else {}
    ensures UsersSound(s.hist + [snap], s.users, released)
  {
    var h := s.hist + [snap];
    forall u | u in s.users ensures Persisted(h, s.users[u], u) && LeftBehind(h, released, s.users[u], u) {
      PersistedGrows(s.hist, snap, s.users[u], u);
      if Held(s.hist, s.users[u]) {
        assert h[|s.hist|] == snap;
      } else {
        LeftBehindGrows(s.hist, snap, s.released, released, s.users[u], u);
      }
    }
  }

  lemma ReleaseKeeps(s: State, write: Write)
    requires Inv(s) && s.phase.Releasing?
    ensures Inv(ReleaseStep(s, s.phase.at, s.phase.forced, write))
  {
    var at := s.phase.at;
    if write.Rejected? || at + 1 != |s.hist| {
      PhaseKeeps(s, Idle);
    } else {
      var o := s.hist[at].obj;
      var snap := Gone(o.uid, o.status.username);
      HistoryGrows(s.hist, snap);
      PutsGrow(s, snap);
      ShownAfterRelease(s, snap);
      UsersAfterRelease(s, snap, s.released + if s.phase.forced then {o.uid} else {});
      assert (s.hist + [snap])[s.cacheAt] == s.hist[s.cacheAt];
    }
  }

  lemma ReadKeeps(s: State)
    requires Inv(s) && s.phase.Idle? && s.hist[s.cacheAt].Present?
    ensures Inv(s.(phase := Resolving(s.cacheAt)))
  {
    PhaseKeeps(s, Resolving(s.cacheAt));
  }

  lemma ResolveKeeps(s: State, r: Resolution)
    requires Inv(s) && s.phase.Resolving?
    ensures Inv(s.(phase := AfterResolution(s, s.phase.at, r)))
  {
    PhaseKeeps(s, AfterResolution(s, s.phase.at, r));
  }

  lemma LimitKeeps(s: State, ok: bool)
    requires Inv(s) && s.phase.Limiting?
    ensures Inv(s.(phase := Reporting(s.phase.at, s.hist[s.phase.at].obj.status.(ready := Some(ok)))))
  {
    PhaseKeeps(s, Reporting(s.phase.at, s.hist[s.phase.at].obj.status.(ready := Some(ok))));
  }

  lemma OperatorKeeps(s: State, e: Event)
    requires Inv(s)
    ensures Inv(OperatorStep(s, e))
  {
    if OperatorStep(s, e) != s {
      match s.phase
      case Idle => ReadKeeps(s);
      case Resolving(at) => ResolveKeeps(s, e.r);
      case Registering(at) => RegisterKeeps(s, e.write);
      case Crediting(at) => CreditKeeps(s, e.username, e.password, e.write);
      case Fetching(at, _) => FetchKeeps(s, e.fails);
      case Recording(at, _, _) => RecordKeeps(s, e.write);
      case Putting(at, _, _) => PutKeeps(s, e.call);
      case Limiting(at) => LimitKeeps(s, e.ok);
      case Reporting(at, status) => ReportKeeps(s, e.write);
      case Deleting(at) => DeleteKeeps(s, e.call);
      case Releasing(at, forced) => ReleaseKeeps(s, e.write);
    }
  }

  lemma StepKeeps(s: State, e: Event)
    requires Inv(s)
    ensures Inv(Step(s, e))
  {
    if ByOthers(e) { OthersKeep(s, e); } else { OperatorKeeps(s, e); }
  }

  // ---------------------------------------------------------------- whole runs

  function Run(s: State, es: seq<Event>): (t: State)
    requires Well(s)
    ensures Well(t) && s.hist <= t.hist && t.meta == s.meta
    decreases |es|
  {
    if es == [] then s else Run(Step(s, es[0]), es[1..])
  }

  lemma {:induction false} RunKeeps(s: State, es: seq<Event>)
    requires Inv(s)
    ensures Inv(Run(s, es))
    decreases |es|
  {
    if es != [] {
      StepKeeps(s, es[0]);
      RunKeeps(Step(s, es[0]), es[1..]);
    }
  }

  lemma Reachable(s: State, es: seq<Event>)
    requires Start(s)
    ensures Well(s) && Inv(Run(s, es))
  {
    assert Inv(s);
    RunKeeps(s, es);
  }

  /** The credentials the operator stored under the generated name are never replaced by others of
      its own making: along any stretch of versions it wrote, the data is that of the first. */
  lemma {:induction false} CredentialsWrittenOnce(s: State, es: seq<Event>, i: nat, j: nat)
    requires Start(s)
    requires var log := SecretLog(Run(s, es), Generated(s));
             && i <= j < |log| && log[i].SecretStored?
             && forall k :: i < k <= j ==> log[k].SecretStored? && log[k].byOperator
    ensures SecretLog(Run(s, es), Generated(s))[j].data == SecretLog(Run(s, es), Generated(s))[i].data
    decreases j
  {
    if i < j {
      CredentialsWrittenOnce(s, es, i, j - 1);
      Reachable(s, es);
    }
  }

  /** Secrets of others, imported ones among them, are only read. */
  lemma OnlyTheGeneratedSecretIsWritten(s: State, es: seq<Event>, name: string, i: nat)
    requires Start(s) && i < |SecretLog(Run(s, es), name)|
    requires SecretLog(Run(s, es), name)[i].SecretStored? && SecretLog(Run(s, es), name)[i].byOperator
    ensures name == Generated(s)
  {
    Reachable(s, es);
  }

  /** Every PutUser sent credentials that the API server had stored, and a username that the User's
      status had recorded: never the fresh values that a lost race discards. */
  lemma PutsComeFromTheStore(s: State, es: seq<Event>, k: nat)
    requires Start(s) && k < |Run(s, es).puts|
    ensures var t := Run(s, es);
            && FromStore(t.secrets, t.puts[k].secret, t.puts[k].data)
            && t.puts[k].data.username.Some? && t.puts[k].data.username.value != ""
            && Persisted(t.hist, t.puts[k].uid, t.puts[k].data.username.value)
            && (t.puts[k].data.hash.Some? || (t.puts[k].data.password.Some? && t.puts[k].data.password.value != ""))
  {
    Reachable(s, es);
  }

  /** When PutUser is about to be called, the version at hand already names, in its stored status,
      the username it will put and the secret its spec asks for. */
  lemma StatusBeforeBroker(s: State, es: seq<Event>)
    requires Start(s) && Run(s, es).phase.Putting?
    ensures var t := Run(s, es);
            var o := t.hist[t.phase.at].obj;
            && o.status.username != "" && t.phase.data.username == Some(o.status.username)
            && o.status.credentials == Some(t.phase.secret)
            && t.phase.secret == (if o.spec.imports.Some? then o.spec.imports.value else t.meta + "-user-credentials")
            && (o.spec.imports.None? && o.spec.fromMeta ==> o.status.username == t.meta)
  {
    Reachable(s, es);
  }

  /** Version j is the latest of its User. */
  ghost predicate Latest(hist: seq<Snapshot>, j: nat) {
    j < |hist| && forall i :: j < i < |hist| ==> UidOf(hist[i]) != UidOf(hist[j])
  }

  lemma PersistedStaysNamed(s: State, j: nat, u: string)
    requires Inv(s) && Latest(s.hist, j) && Persisted(s.hist, UidOf(s.hist[j]), u) && u != ""
    ensures NameOf(s.hist[j]) != ""
  {
    var i :| 0 <= i < |s.hist| && UidOf(s.hist[i]) == UidOf(s.hist[j]) && NameOf(s.hist[i]) == u;
    assert Later(s.hist[i], s.hist[j]);
  }

  /** No username in the stored status of a User: nothing was put in the broker for it, so its deletion
      may skip the broker. */
  lemma UnnamedMeansNeverPut(s: State, es: seq<Event>, j: nat)
    requires Start(s) && Latest(Run(s, es).hist, j) && NameOf(Run(s, es).hist[j]) == ""
    ensures var t := Run(s, es);
            && (forall u :: u in t.users ==> t.users[u] != UidOf(t.hist[j]))
            && (forall k :: 0 <= k < |t.puts| ==> t.puts[k].uid != UidOf(t.hist[j]))
  {
    var t := Run(s, es);
    Reachable(s, es);
    if u :| u in t.users && t.users[u] == UidOf(t.hist[j]) {
      PersistedStaysNamed(t, j, u);
    }
    if k :| 0 <= k < |t.puts| && t.puts[k].uid == UidOf(t.hist[j]) {
      PersistedStaysNamed(t, j, t.puts[k].data.username.value);
    }
  }

  /** A username, once recorded, may be replaced by another but is never lost. */
  lemma UsernameNeverLost(s: State, es: seq<Event>, i: nat, j: nat)
    requires Start(s) && i <= j < |Run(s, es).hist| && UidOf(Run(s, es).hist[i]) == UidOf(Run(s, es).hist[j])
    requires NameOf(Run(s, es).hist[i]) != ""
    ensures NameOf(Run(s, es).hist[j]) != ""
  {
    Reachable(s, es);
    assert Later(Run(s, es).hist[i], Run(s, es).hist[j]);
  }

  /** A User that is gone stays so, as it was. */
  lemma GoneStays(s: State, g: nat, i: nat)
    requires Inv(s) && g < |s.hist| && i < |s.hist| && s.hist[g].Gone? && UidOf(s.hist[i]) == s.hist[g].last
    ensures g <= i || s.hist[i].Gone? ==> s.hist[i] == s.hist[g]
  {
    if g <= i {
      assert Later(s.hist[g], s.hist[i]);
    } else {
      assert Later(s.hist[i], s.hist[g]);
    }
  }

  lemma LeftAfterDeletion(s: State, g: nat, u: string)
    requires Inv(s) && g < |s.hist| && s.hist[g].Gone? && s.hist[g].last !in s.released && OwnsUser(s.users, u, s.hist[g].last)
    ensures u != s.hist[g].final && s.hist[g].final != ""
    ensures exists i :: 0 <= i < g && UidOf(s.hist[i]) == s.hist[g].last && NameOf(s.hist[i]) == u
  {
    var uid := s.hist[g].last;
    if Held(s.hist, uid) {
      GoneStays(s, g, |s.hist| - 1);
    } else {
      var k :| 0 <= k < |s.hist| && s.hist[k].Gone? && s.hist[k].last == uid && (uid in s.released || s.hist[k].final != u);
      GoneStays(s, g, k);
      var i :| 0 <= i < |s.hist| && UidOf(s.hist[i]) == uid && NameOf(s.hist[i]) == u;
      GoneStays(s, g, i);
      assert Later(s.hist[i], s.hist[g]);
    }
  }

  /** After a deletion through the broker, the user the status named is gone; any user of that User
      still there has a name the status gave up earlier. This holds whatever Users of the same
      name came later. */
  lemma DeletionLeavesOnlyEarlierNames(s: State, es: seq<Event>, g: nat, u: string)
    requires Start(s)
    requires var t := Run(s, es);
             && g < |t.hist| && t.hist[g].Gone? && t.hist[g].last !in t.released
             && OwnsUser(t.users, u, t.hist[g].last)
    ensures var t := Run(s, es);
            && u != t.hist[g].final
            && exists i :: 0 <= i < g && UidOf(t.hist[i]) == t.hist[g].last && NameOf(t.hist[i]) == u
  {
    Reachable(s, es);
    LeftAfterDeletion(Run(s, es), g, u);
  }

  /** Its versions had no username but this one. */
  ghost predicate OneName(hist: seq<Snapshot>, uid: nat, name: string) {
    forall i :: 0 <= i < |hist| && UidOf(hist[i]) == uid ==> NameOf(hist[i]) in ["", name]
  }

  lemma NothingLeft(s: State, g: nat, name: string, u: string)
    requires Inv(s) && g < |s.hist| && s.hist[g].Gone? && s.hist[g].last !in s.released && OneName(s.hist, s.hist[g].last, name)
    ensures !OwnsUser(s.users, u, s.hist[g].last)
  {
    if OwnsUser(s.users, u, s.hist[g].last) {
      LeftAfterDeletion(s, g, u);
    }
  }

  /** So a User whose name never moved leaves nothing behind. */
  lemma OneNameMeansGone(s: State, es: seq<Event>, g: nat, name: string, u: string)
    requires Start(s)
    requires var t := Run(s, es);
             && g < |t.hist| && t.hist[g].Gone? && t.hist[g].last !in t.released && OneName(t.hist, t.hist[g].last, name)
    ensures !OwnsUser(Run(s, es).users, u, Run(s, es).hist[g].last)
  {
    Reachable(s, es);
    NothingLeft(Run(s, es), g, name, u);
  }

  /** A deletion based on an old cache never removes the broker user of a live successor, even one
      with the same username. */
  lemma NeverDeletesLiveUser(s: State, es: seq<Event>)
    requires Start(s) && Run(s, es).phase.Deleting?
    ensures var t := Run(s, es);
            Last(t.hist).Present? && !Last(t.hist).obj.marked ==>
              !OwnsUser(t.users, t.hist[t.phase.at].obj.status.username, Last(t.hist).obj.uid)
  {
    Reachable(s, es);
    var t := Run(s, es);
    assert Later(t.hist[t.phase.at], Last(t.hist));
  }

  lemma {:induction false} RunThenRun(s: State, es: seq<Event>, fs: seq<Event>)
    requires Well(s)
    ensures Run(s, es + fs) == Run(Run(s, es), fs)
    decreases |es|
  {
    if es == [] {
      assert es + fs == fs;
    } else {
      assert (es + fs)[1..] == es[1..] + fs;
      RunThenRun(Step(s, es[0]), es[1..], fs);
    }
  }

  lemma RunThenStep(s: State, es: seq<Event>, e: Event)
    requires Well(s)
    ensures Run(s, es + [e]) == Step(Run(s, es), e)
  {
    RunThenRun(s, es, [e]);
    assert [e][1..] == [];
  }
}
