/** Resolving a resource's cluster reference: which objects are read, which error is reported, who
    may refer across namespaces, and which resources a change of a cluster must wake. */
module ClusterReferences {
  import opened Types
  import opened Decimals

  // ---------------------------------------------------------------- comma-separated lists

  /** strings.Split(s, ","). */
  function Split(s: string): (parts: seq<string>)
    ensures |parts| > 0
  {
    if s == [] then [""]
    else
      var rest := Split(s[1..]);
      if s[0] == ',' then [""] + rest else [[s[0]] + rest[0]] + rest[1..]
  }

  function Join(names: seq<string>): string {
    if names == [] then "" else if |names| == 1 then names[0] else names[0] + "," + Join(names[1..])
  }

  lemma {:induction false} SplitPlain(s: string)
    requires ',' !in s
    ensures Split(s) == [s]
  {
    if s != [] {
      SplitPlain(s[1..]);
      assert [s[0]] + s[1..] == s;
    }
  }

  lemma {:induction false} SplitAfterPlain(s: string, t: string)
    requires ',' !in s
    ensures Split(s + "," + t) == [s] + Split(t)
    decreases |s|
  {
    var u := s + "," + t;
    if s == [] {
      assert u == [','] + t && u[1..] == t;
    } else {
      assert u[1..] == s[1..] + "," + t && u[0] == s[0];
      SplitAfterPlain(s[1..], t);
      assert [s[0]] + s[1..] == s;
      assert ([s[1..]] + Split(t))[1..] == Split(t);
    }
  }

  /** Splitting what was joined from comma-free names gives the names back. */
  lemma {:induction false} SplitJoin(names: seq<string>)
    requires forall n :: n in names ==> ',' !in n
    ensures Split(Join(names)) == if names == [] then [""] else names
    decreases |names|
  {
    if names == [] {
    } else if |names| == 1 {
      assert names[0] in names && names == [names[0]];
      assert Join(names) == names[0];
      SplitPlain(names[0]);
    } else {
      var first, rest := names[0], names[1..];
      assert first in names && forall n :: n in rest ==> n in names;
      assert Join(names) == first + "," + Join(rest);
      SplitJoin(rest);
      SplitAfterPlain(first, Join(rest));
      assert [first] + rest == names;
    }
  }

  // ---------------------------------------------------------------- who may refer to a cluster

  /** Whether the annotation of a cluster or of a connection secret lets `requester` in. */
  predicate Listed(annotation: Option<string>, requester: string) {
    annotation.Some? && (requester in Split(annotation.value) || "*" in Split(annotation.value))
  }

  predicate Allowed(r: ClusterRef, requester: string, annotation: Option<string>) {
    r.namespace == "" || r.namespace == requester || Listed(annotation, requester)
  }

  /** AllowedNamespace on a cluster's annotation, and AllowedNamespaceSecret on a secret's: one
      search, and so one answer for equal annotations. */
  method AllowedNamespace(r: ClusterRef, requester: string, annotation: Option<string>) returns (ok: bool)
    ensures ok == Allowed(r, requester, annotation)
  {
    if r.namespace != "" && r.namespace != requester {
      var isAllowed := false;
      if annotation.Some? {
        var parts := Split(annotation.value);
        var i := 0;
        while i < |parts|
          invariant 0 <= i <= |parts| && !isAllowed
          invariant forall j :: 0 <= j < i ==> parts[j] != requester && parts[j] != "*"
        {
          if requester == parts[i] || parts[i] == "*" {
            isAllowed := true;
            break;
          }
          i := i + 1;
        }
      }
      if !isAllowed { return false; }
    }
    return true;
  }

  /** A reference within the requester's own namespace is always allowed; one across namespaces is
      never allowed without the annotation, and with a list of non-empty comma-free names exactly
      when the requester is in it or it has "*". The empty list allows no namespace that has a name. */
  lemma NamespaceList(r: ClusterRef, requester: string, names: seq<string>)
    requires forall n :: n in names ==> n != "" && ',' !in n
    ensures var own := r.namespace == "" || r.namespace == requester;
            && (Allowed(r, requester, Some(Join(names))) <==>
                  own || requester in names || "*" in names || (names == [] && requester == ""))
            && (Allowed(r, requester, None) <==> own)
  {
    SplitJoin(names);
  }

  // ---------------------------------------------------------------- the objects that are read

  datatype Key = Key(namespace: string, name: string)

  datatype Got<T> = Found(value: T) | NotFound | Unreadable

  /** `config` is the management path prefix from the additional configuration, None when that
      does not parse; `vault` is the result of reading credentials from the secret store. */
  datatype Cluster = Cluster(
    allowed: Option<string>, replicas: Option<int>, service: Option<string>,
    vault: Option<Option<(string, string)>>, binding: Option<string>, uri: Option<string>,
    tls: bool, onlyTls: bool, config: Option<string>)

  datatype Secret = Secret(allowed: Option<string>, data: map<string, string>)

  datatype Service = Service(name: string, namespace: string, ports: seq<(string, nat)>)

  datatype World = World(
    clusters: map<Key, Cluster>,
    cachedSecrets: map<Key, Got<Secret>>,
    secrets: map<Key, Got<Secret>>,
    services: map<Key, Got<Service>>,
    badUris: set<string>)

  function Get<T>(m: map<Key, Got<T>>, k: Key): Got<T> {
    if k in m then m[k] else NotFound
  }

  datatype Parsed =
    | Connected(username: string, password: string, uri: string, tls: bool)
    | NoSuchCluster
    | NotAllowed
    | AtZero
    | NoServiceReference
    | OtherError

  function ReferenceNamespace(r: ClusterRef, requester: string): string {
    if r.namespace == "" then requester else r.namespace
  }

  /** The scheme of an address that begins with "http"; schemes are read without regard to case. */
  predicate IsHttps(uri: string) {
    |uri| > 5 && uri[4] in ['s', 'S'] && uri[5] == ':'
  }

  /** extractURIandScheme. */
  function Connect(w: World, user: string, pass: string, uri: string): Parsed {
    var full := if "http" <= uri then uri else "http://" + uri;
    if full in w.badUris then OtherError else Connected(user, pass, full, IsHttps(full))
  }

  function DataOf(s: Secret, key: string): string {
    if key in s.data then s.data[key] else ""
  }

  /** The number of the first port of this name; 0 when there is none. */
  function PortNamed(ports: seq<(string, nat)>, name: string): nat {
    if ports == [] then 0 else if ports[0].0 == name then ports[0].1 else PortNamed(ports[1..], name)
  }

  /** Port i is the first of this name. */
  ghost predicate FirstNamed(ports: seq<(string, nat)>, name: string, i: nat) {
    i < |ports| && ports[i].0 == name && forall j :: 0 <= j < i ==> ports[j].0 != name
  }

  /** The port search of managementURI: the number of the first port of this name, 0 if there is none. */
  method FindPort(ports: seq<(string, nat)>, name: string) returns (port: nat)
    ensures forall i: nat :: FirstNamed(ports, name, i) ==> port == ports[i].1
    ensures (forall i: nat :: !FirstNamed(ports, name, i)) ==> port == 0
    ensures port == PortNamed(ports, name)
  {
    port := 0;
    var i := 0;
    assert ports[0..] == ports;
    while i < |ports|
      invariant 0 <= i <= |ports| && port == 0
      invariant forall j :: 0 <= j < i ==> ports[j].0 != name
      invariant PortNamed(ports, name) == PortNamed(ports[i..], name)
    {
      if ports[i].0 == name {
        port := ports[i].1;
        assert FirstNamed(ports, name, i);
        return;
      }
      assert ports[i..][1..] == ports[i+1..];
      i := i + 1;
    }
  }

  /** A path behind a host begins with "/". */
  function Rooted(path: string): string {
    if path == "" || path[0] == '/' then path else "/" + path
  }

  function ManagementUri(svc: Service, tls: bool, domain: string, prefix: string): Option<string> {
    var port := PortNamed(svc.ports, if tls then "management-tls" else "management");
    if port == 0 then None
    else Some((if tls then "https" else "http") + "://" + svc.name + "." + svc.namespace + ".svc" + domain
              + ":" + Decimal(port) + Rooted(prefix))
  }

  /** The user and password of a cluster's default user; None stands for any error but a missing secret. */
  datatype Credentials = Known(user: string, pass: string) | SecretMissing | Unknown

  function CredentialsOf(w: World, c: Cluster, namespace: string): Credentials {
    if c.vault.Some? then
      if c.vault.value.Some? then Known(c.vault.value.value.0, c.vault.value.value.1) else Unknown
    else if c.binding.None? then Unknown
    else match Get(w.secrets, Key(namespace, c.binding.value))
      case NotFound => SecretMissing
      case Unreadable => Unknown
      case Found(s) => Known(DataOf(s, "username"), DataOf(s, "password"))
  }

  /** The part of ParseReference after the cluster was found and is allowed and not at zero. */
  function Endpoint(w: World, c: Cluster, namespace: string, domain: string, plainHttp: bool): Parsed {
    if c.service.None? then NoServiceReference
    else match CredentialsOf(w, c, namespace)
      case SecretMissing => NoSuchCluster
      case Unknown => OtherError
      case Known(user, pass) =>
        if c.uri.Some? then Connect(w, user, pass, c.uri.value)
        else match Get(w.services, Key(namespace, c.service.value))
          case NotFound => NoSuchCluster
          case Unreadable => OtherError
          case Found(svc) =>
            if c.config.None? then OtherError
            else
              var tls := c.tls && (!plainHttp || c.onlyTls);
              match ManagementUri(svc, tls, domain, c.config.value)
              case None => OtherError
              case Some(uri) => Connected(user, pass, uri, tls)
  }

  /** ParseReference. Every failed read of the cluster object is reported as NoSuchCluster. */
  function ParseReference(w: World, r: ClusterRef, requester: string, domain: string, plainHttp: bool): Parsed {
    var namespace := ReferenceNamespace(r, requester);
    if r.connectionSecret.Some? then
      match Get(w.cachedSecrets, Key(namespace, r.connectionSecret.value))
      case NotFound => OtherError
      case Unreadable => OtherError
      case Found(s) =>
        if !Allowed(r, requester, s.allowed) then NotAllowed
        else if "uri" !in s.data then OtherError
        else Connect(w, DataOf(s, "username"), DataOf(s, "password"), s.data["uri"])
    else
      var key := Key(namespace, r.name);
      if key !in w.clusters then NoSuchCluster
      else
        var c := w.clusters[key];
        if !Allowed(r, requester, c.allowed) then NotAllowed
        else if c.replicas == Some(0) then AtZero
        else Endpoint(w, c, namespace, domain, plainHttp)
  }

  /** What a released resource was told: "no such cluster" is reported exactly when the cluster, or
      the secret of its default user, or (without a connection address of its own) its service
      is missing; "scaled to zero" exactly when the cluster is there, allowed, and has no replicas;
      "not allowed" exactly when what the reference names is there and does not list the requester. */
  lemma ReportedErrors(w: World, r: ClusterRef, requester: string, domain: string, plainHttp: bool)
    ensures var p := ParseReference(w, r, requester, domain, plainHttp);
            var ns := ReferenceNamespace(r, requester);
            var key := Key(ns, r.name);
            && (p.AtZero? <==> r.connectionSecret.None? && key in w.clusters
                               && Allowed(r, requester, w.clusters[key].allowed) && w.clusters[key].replicas == Some(0))
            && (p.NotAllowed? <==>
                  if r.connectionSecret.None? then key in w.clusters && !Allowed(r, requester, w.clusters[key].allowed)
                  else var got := Get(w.cachedSecrets, Key(ns, r.connectionSecret.value));
                       got.Found? && !Allowed(r, requester, got.value.allowed))
            && (p.NoSuchCluster? <==>
                  r.connectionSecret.None? &&
                  (|| key !in w.clusters
                   || var c := w.clusters[key];
                      && Allowed(r, requester, c.allowed) && c.replicas != Some(0) && c.service.Some?
                      && (|| (c.vault.None? && c.binding.Some? && Get(w.secrets, Key(ns, c.binding.value)).NotFound?)
                          || (CredentialsOf(w, c, ns).Known? && c.uri.None? && Get(w.services, Key(ns, c.service.value)).NotFound?))))
  {
  }

  /** The value under a key of a secret, "" if there is none. */
  predicate ValueUnder(data: map<string, string>, key: string, value: string) {
    if key in data then value == data[key] else value == ""
  }

  /** What a successful answer says about an address given in full or without its scheme. */
  predicate AnswersAddress(p: Parsed, address: string) {
    && p.Connected?
    && p.uri == (if |address| >= 4 && address[..4] == "http" then address else "http://" + address)
    && (p.tls <==> |p.uri| > 5 && (p.uri[..6] == "https:" || p.uri[..6] == "httpS:"))
  }

  /** A reference through a connection secret is answered exactly when the secret is there, allows the
      requester and has an address that parses; the answer is the secret's own. */
  lemma ConnectedBySecret(w: World, r: ClusterRef, requester: string, domain: string, plainHttp: bool)
    requires r.connectionSecret.Some?
    ensures var p := ParseReference(w, r, requester, domain, plainHttp);
            var got := Get(w.cachedSecrets, Key(ReferenceNamespace(r, requester), r.connectionSecret.value));
            && (p.Connected? <==>
                  && got.Found? && Allowed(r, requester, got.value.allowed) && "uri" in got.value.data
                  && (if "http" <= got.value.data["uri"] then got.value.data["uri"] else "http://" + got.value.data["uri"]) !in w.badUris)
            && (p.Connected? ==>
                  && ValueUnder(got.value.data, "username", p.username) && ValueUnder(got.value.data, "password", p.password)
                  && AnswersAddress(p, got.value.data["uri"]))
  {
  }

  /** The credentials of a cluster's default user are these. */
  predicate DefaultUser(w: World, c: Cluster, namespace: string, user: string, pass: string) {
    if c.vault.Some? then c.vault.value == Some((user, pass))
    else c.binding.Some? && var got := Get(w.secrets, Key(namespace, c.binding.value));
         got.Found? && ValueUnder(got.value.data, "username", user) && ValueUnder(got.value.data, "password", pass)
  }

  /** The connection uses TLS: the cluster has it on, and plain HTTP is not asked for or not offered. */
  predicate UsesTls(c: Cluster, plainHttp: bool) {
    c.tls && (plainHttp ==> c.onlyTls)
  }

  /** The service offers this management port. */
  ghost predicate Offers(svc: Service, tls: bool, port: nat) {
    exists i: nat :: FirstNamed(svc.ports, if tls then "management-tls" else "management", i) && svc.ports[i].1 == port
  }

  /** The address of a management port that the service offers. */
  ghost predicate ServiceAddress(svc: Service, tls: bool, domain: string, prefix: string, uri: string) {
    exists port :: port > 0 && Offers(svc, tls, port) && uri == AddressAt(svc, tls, domain, prefix, port)
  }

  function AddressAt(svc: Service, tls: bool, domain: string, prefix: string, port: nat): string {
    (if tls then "https" else "http") + "://" + svc.name + "." + svc.namespace + ".svc" + domain
    + ":" + Decimal(port) + (if prefix == "" || prefix[0] == '/' then prefix else "/" + prefix)
  }

  lemma {:induction false} PortNamedMeans(ports: seq<(string, nat)>, name: string)
    ensures forall i: nat :: FirstNamed(ports, name, i) ==> PortNamed(ports, name) == ports[i].1
    ensures (forall i: nat :: !FirstNamed(ports, name, i)) ==> PortNamed(ports, name) == 0
  {
    if ports != [] {
      if ports[0].0 == name {
        assert FirstNamed(ports, name, 0);
      } else {
        PortNamedMeans(ports[1..], name);
        forall i: nat ensures i > 0 ==> (FirstNamed(ports, name, i) <==> FirstNamed(ports[1..], name, i - 1)) {
          if i > 0 && FirstNamed(ports[1..], name, i - 1) {
            forall j | 0 <= j < i ensures ports[j].0 != name { assert j > 0 ==> ports[j] == ports[1..][j-1]; }
          }
          if i > 0 && FirstNamed(ports, name, i) {
            forall j | 0 <= j < i - 1 ensures ports[1..][j].0 != name { assert ports[1..][j] == ports[j+1]; }
          }
        }
        assert forall i: nat :: FirstNamed(ports[1..], name, i) ==> FirstNamed(ports, name, i + 1);
      }
    }
  }

  /** A reference by name is answered exactly when the cluster is there, allows the requester, is not at
      zero, names its service, has credentials that can be read, and has an address of its own that
      parses or a service with a management port; the answer is made of just these. */
  lemma ConnectedByName(w: World, r: ClusterRef, requester: string, domain: string, plainHttp: bool)
    requires r.connectionSecret.None?
    ensures var p := ParseReference(w, r, requester, domain, plainHttp);
            var ns := ReferenceNamespace(r, requester);
            p.Connected? ==>
              && Key(ns, r.name) in w.clusters && var c := w.clusters[Key(ns, r.name)];
              && Allowed(r, requester, c.allowed) && c.replicas != Some(0) && c.service.Some?
              && DefaultUser(w, c, ns, p.username, p.password)
              && if c.uri.Some? then AnswersAddress(p, c.uri.value)
                 else && p.tls == UsesTls(c, plainHttp) && c.config.Some?
                      && var got := Get(w.services, Key(ns, c.service.value));
                      && got.Found? && ServiceAddress(got.value, p.tls, domain, c.config.value, p.uri)
  {
    var p := ParseReference(w, r, requester, domain, plainHttp);
    var ns := ReferenceNamespace(r, requester);
    if p.Connected? {
      var c := w.clusters[Key(ns, r.name)];
      if c.uri.None? {
        var svc := Get(w.services, Key(ns, c.service.value)).value;
        ServiceAnswer(svc, p.tls, domain, c.config.value);
      }
    }
  }

  /** The port that the search finds is the one on offer, if any. */
  lemma PortOnOffer(svc: Service, tls: bool)
    ensures var port := PortNamed(svc.ports, if tls then "management-tls" else "management");
            && (port > 0 ==> Offers(svc, tls, port))
            && (forall other :: other > 0 && Offers(svc, tls, other) ==> other == port)
  {
    PortNamedMeans(svc.ports, if tls then "management-tls" else "management");
  }

  lemma ServiceAnswer(svc: Service, tls: bool, domain: string, prefix: string)
    ensures ManagementUri(svc, tls, domain, prefix).Some? <==> exists port :: port > 0 && Offers(svc, tls, port)
    ensures ManagementUri(svc, tls, domain, prefix).Some? ==>
              ServiceAddress(svc, tls, domain, prefix, ManagementUri(svc, tls, domain, prefix).value)
  {
    PortOnOffer(svc, tls);
    var port := PortNamed(svc.ports, if tls then "management-tls" else "management");
    if port > 0 {
      assert ManagementUri(svc, tls, domain, prefix).value == AddressAt(svc, tls, domain, prefix, port);
    }
  }

  /** And whenever those are there, it is answered. */
  lemma ConnectedByNameWhen(w: World, r: ClusterRef, requester: string, domain: string, plainHttp: bool, user: string, pass: string)
    requires r.connectionSecret.None? && Key(ReferenceNamespace(r, requester), r.name) in w.clusters
    requires var ns := ReferenceNamespace(r, requester);
             var c := w.clusters[Key(ns, r.name)];
             && Allowed(r, requester, c.allowed) && c.replicas != Some(0) && c.service.Some? && DefaultUser(w, c, ns, user, pass)
             && if c.uri.Some? then (if "http" <= c.uri.value then c.uri.value else "http://" + c.uri.value) !in w.badUris
                else && c.config.Some? && var got := Get(w.services, Key(ns, c.service.value));
                     got.Found? && exists port :: port > 0 && Offers(got.value, UsesTls(c, plainHttp), port)
    ensures var p := ParseReference(w, r, requester, domain, plainHttp); p.Connected? && p.username == user && p.password == pass
  {
    var ns := ReferenceNamespace(r, requester);
    var c := w.clusters[Key(ns, r.name)];
    if c.uri.None? {
      ServiceAnswer(Get(w.services, Key(ns, c.service.value)).value, UsesTls(c, plainHttp), domain, c.config.value);
    }
  }

  // ---------------------------------------------------------------- which resources a cluster wakes

  datatype Resource = Resource(key: Key, cluster: ClusterRef)

  predicate Selects(r: ClusterRef, requester: string, cluster: Key) {
    r.connectionSecret.None? && Key(ReferenceNamespace(r, requester), r.name) == cluster
  }

  /** rabbitmqClusterToRequests. */
  method ClusterToRequests(items: seq<Resource>, cluster: Key) returns (requests: seq<Key>)
    ensures forall k :: k in requests <==>
              exists i :: 0 <= i < |items| && items[i].key == k && Selects(items[i].cluster, k.namespace, cluster)
  {
    requests := [];
    for n := 0 to |items|
      invariant forall k :: k in requests <==>
                  exists i :: 0 <= i < n && items[i].key == k && Selects(items[i].cluster, k.namespace, cluster)
    {
      var ref := items[n].cluster;
      if ref.connectionSecret.None? {
        var namespace := if ref.namespace == "" then items[n].key.namespace else ref.namespace;
        if ref.name == cluster.name && namespace == cluster.namespace {
          requests := requests + [items[n].key];
        }
      }
    }
  }

  /** The world with another cluster, or none, at k. */
  function WithCluster(w: World, k: Key, c: Option<Cluster>): World {
    w.(clusters := if c.Some? then w.clusters[k := c.value] else w.clusters - {k})
  }

  /** A cluster is selected for exactly the references whose resolution can depend on it: no change
      at k matters to a reference that does not select k, and some change does to one that does. */
  lemma SelectsExactly(w: World, r: ClusterRef, requester: string, domain: string, plainHttp: bool, k: Key)
    ensures Selects(r, requester, k) <==>
              exists c, c' :: ParseReference(WithCluster(w, k, c), r, requester, domain, plainHttp)
                              != ParseReference(WithCluster(w, k, c'), r, requester, domain, plainHttp)
  {
    if Selects(r, requester, k) {
      var c := Cluster(Some("*"), Some(0), None, None, None, None, false, false, None);
      assert "*" in Split("*") by { SplitPlain("*"); }
      assert Allowed(r, requester, c.allowed);
      assert ParseReference(WithCluster(w, k, Some(c)), r, requester, domain, plainHttp) == AtZero;
      assert ParseReference(WithCluster(w, k, None), r, requester, domain, plainHttp) == NoSuchCluster;
    } else {
      forall c ensures ParseReference(WithCluster(w, k, c), r, requester, domain, plainHttp)
                       == ParseReference(w, r, requester, domain, plainHttp)
      {
        UnselectedUnchanged(w, r, requester, domain, plainHttp, k, c);
      }
    }
  }

  lemma UnselectedUnchanged(w: World, r: ClusterRef, requester: string, domain: string, plainHttp: bool, k: Key, c: Option<Cluster>)
    requires !Selects(r, requester, k)
    ensures ParseReference(WithCluster(w, k, c), r, requester, domain, plainHttp)
            == ParseReference(w, r, requester, domain, plainHttp)
  {
    var key := Key(ReferenceNamespace(r, requester), r.name);
    var w' := WithCluster(w, k, c);
    if r.connectionSecret.None? {
      assert key != k;
      assert key in w'.clusters <==> key in w.clusters;
      if key in w.clusters {
        assert w'.clusters[key] == w.clusters[key];
        assert CredentialsOf(w', w.clusters[key], key.namespace) == CredentialsOf(w, w.clusters[key], key.namespace);
        assert Endpoint(w', w.clusters[key], key.namespace, domain, plainHttp) == Endpoint(w, w.clusters[key], key.namespace, domain, plainHttp);
      }
    }
  }
}
