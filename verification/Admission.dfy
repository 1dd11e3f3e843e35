/** The update and create rules of the Queue, Exchange and Binding admission webhooks, and what
    they keep fixed: the place in the broker that a resource declares and later deletes. */
module Admission {
  import opened Types

  /** What a webhook answers. `Forbidden` is returned at the first offending field,
      `Invalid` collects every offending field. */
  datatype Verdict = Allowed | Forbidden(field: string) | Invalid(fields: seq<string>)

  // ---------------------------------------------------------------- cluster references

  /** Field-by-field comparison of two references, with the three connection-secret cases: it is
      equality. */
  predicate Matches(prev: ClusterRef, next: ClusterRef): (same: bool)
    ensures same <==> prev == next
  {
    if next.name != prev.name || next.namespace != prev.namespace then false
    else if next.connectionSecret.Some? && prev.connectionSecret.Some?
            && next.connectionSecret.value != prev.connectionSecret.value then false
    else if next.connectionSecret.None? && prev.connectionSecret.Some? then false
    else if next.connectionSecret.Some? && prev.connectionSecret.None? then false
    else true
  }

  /** validate: a reference is by name or by connection secret, not both and not neither. */
  predicate ReferenceValid(r: ClusterRef): (ok: bool)
    ensures ok <==> (r.name != "" <==> r.connectionSecret.None?)
  {
    !(r.name != "" && r.connectionSecret.Some?) && !(r.name == "" && r.connectionSecret.None?)
  }

  // ---------------------------------------------------------------- what updates must keep

  predicate QueueUpdateAllowed(prev: QueueSpec, next: QueueSpec) {
    && next.name == prev.name && next.vhost == prev.vhost && next.cluster == prev.cluster
    && next.kind == prev.kind && next.autoDelete == prev.autoDelete
    && Deref(next.durable, false) == Deref(prev.durable, false)
    && next.arguments == prev.arguments
  }

  predicate ExchangeUpdateAllowed(prev: ExchangeSpec, next: ExchangeSpec) {
    && next.name == prev.name && next.vhost == prev.vhost && next.cluster == prev.cluster
    && next.kind == prev.kind && next.autoDelete == prev.autoDelete && next.durable == prev.durable
  }

  predicate BindingUpdateAllowed(prev: BindingSpec, next: BindingSpec) {
    next == prev
  }

  /** The queue webhook's update rule: it lets in exactly the updates that keep the queue's
      identity and every property the broker cannot change; a moved queue is `Forbidden`. */
  method ValidateQueueUpdate(prev: QueueSpec, next: QueueSpec) returns (v: Verdict)
    ensures v.Allowed? <==>
              && next.name == prev.name && next.vhost == prev.vhost && next.cluster == prev.cluster
              && next.kind == prev.kind && next.autoDelete == prev.autoDelete && next.arguments == prev.arguments
              && ((next.durable == Some(true)) <==> (prev.durable == Some(true)))
    ensures v.Allowed? <==> QueueUpdateAllowed(prev, next)
    ensures v.Forbidden? <==> !(next.name == prev.name && next.vhost == prev.vhost && next.cluster == prev.cluster)
    ensures v == Forbidden("name") <==> next.name != prev.name
    ensures v == Forbidden("vhost") <==> next.name == prev.name && next.vhost != prev.vhost
    ensures v == Forbidden("rabbitmqClusterReference") <==>
              next.name == prev.name && next.vhost == prev.vhost && next.cluster != prev.cluster
    ensures v.Invalid? ==>
              && ("type" in v.fields <==> next.kind != prev.kind)
              && ("autoDelete" in v.fields <==> next.autoDelete != prev.autoDelete)
              && ("durable" in v.fields <==> Deref(next.durable, false) != Deref(prev.durable, false))
              && ("arguments" in v.fields <==> next.arguments != prev.arguments)
  {
    if next.name != prev.name { return Forbidden("name"); }
    if next.vhost != prev.vhost { return Forbidden("vhost"); }
    if !Matches(prev.cluster, next.cluster) { return Forbidden("rabbitmqClusterReference"); }
    var errs: seq<string> := [];
    if next.kind != prev.kind { errs := errs + ["type"]; }
    if next.autoDelete != prev.autoDelete { errs := errs + ["autoDelete"]; }
    if Deref(next.durable, false) != Deref(prev.durable, false) { errs := errs + ["durable"]; }
    if prev.arguments.Some? && next.arguments.None? { errs := errs + ["arguments"]; }
    if prev.arguments.None? && next.arguments.Some? { errs := errs + ["arguments"]; }
    if prev.arguments.Some? && next.arguments.Some? && prev.arguments.value != next.arguments.value {
      errs := errs + ["arguments"];
    }
    v := if |errs| == 0 then Allowed else Invalid(errs);
  }

  /** The exchange webhook's update rule; arguments may change, nothing else that matters may. */
  method ValidateExchangeUpdate(prev: ExchangeSpec, next: ExchangeSpec) returns (v: Verdict)
    ensures v.Allowed? <==>
              && next.name == prev.name && next.vhost == prev.vhost && next.cluster == prev.cluster
              && next.kind == prev.kind && next.autoDelete == prev.autoDelete && next.durable == prev.durable
    ensures v.Allowed? <==> ExchangeUpdateAllowed(prev, next)
    ensures v.Forbidden? <==> !(next.name == prev.name && next.vhost == prev.vhost && next.cluster == prev.cluster)
    ensures v == Forbidden("name") <==> next.name != prev.name
    ensures v == Forbidden("vhost") <==> next.name == prev.name && next.vhost != prev.vhost
    ensures v == Forbidden("rabbitmqClusterReference") <==>
              next.name == prev.name && next.vhost == prev.vhost && next.cluster != prev.cluster
    ensures v.Invalid? ==>
              && ("type" in v.fields <==> next.kind != prev.kind)
              && ("autoDelete" in v.fields <==> next.autoDelete != prev.autoDelete)
              && ("durable" in v.fields <==> next.durable != prev.durable)
  {
    if next.name != prev.name { return Forbidden("name"); }
    if next.vhost != prev.vhost { return Forbidden("vhost"); }
    if !Matches(prev.cluster, next.cluster) { return Forbidden("rabbitmqClusterReference"); }
    var errs: seq<string> := [];
    if next.kind != prev.kind { errs := errs + ["type"]; }
    if next.autoDelete != prev.autoDelete { errs := errs + ["autoDelete"]; }
    if next.durable != prev.durable { errs := errs + ["durable"]; }
    v := if |errs| == 0 then Allowed else Invalid(errs);
  }

  /** The binding webhook's update rule: a binding's spec cannot change at all. */
  method ValidateBindingUpdate(prev: BindingSpec, next: BindingSpec) returns (v: Verdict)
    ensures v.Allowed? <==>
              && next.vhost == prev.vhost && next.cluster == prev.cluster && next.source == prev.source
              && next.destination == prev.destination && next.destinationType == prev.destinationType
              && next.routingKey == prev.routingKey && next.arguments == prev.arguments
    ensures v.Allowed? <==> BindingUpdateAllowed(prev, next)
    ensures v.Forbidden? <==> !(next.vhost == prev.vhost && next.cluster == prev.cluster)
  {
    if next.vhost != prev.vhost { return Forbidden("vhost"); }
    if !Matches(prev.cluster, next.cluster) { return Forbidden("rabbitmqClusterReference"); }
    var errs: seq<string> := [];
    if next.source != prev.source { errs := errs + ["source"]; }
    if next.destination != prev.destination { errs := errs + ["destination"]; }
    if next.destinationType != prev.destinationType { errs := errs + ["destinationType"]; }
    if next.routingKey != prev.routingKey { errs := errs + ["routingKey"]; }
    if next.arguments != prev.arguments { errs := errs + ["arguments"]; }
    v := if |errs| == 0 then Allowed else Invalid(errs);
  }

  // ---------------------------------------------------------------- resources of the three kinds

  datatype Resource =
    | QueueResource(queue: QueueSpec)
    | ExchangeResource(exchange: ExchangeSpec)
    | BindingResource(binding: BindingSpec)

  /** Where in a broker a resource lives. Bindings have no name: they are what they connect. */
  datatype Place =
    | QueueAt(vhost: string, name: string)
    | ExchangeAt(vhost: string, name: string)
    | BindingAt(vhost: string, source: string, destination: string, destinationType: string,
                routingKey: string, arguments: Arguments)

  /** The broker (a cluster reference) and the place in it. */
  datatype Coordinates = Coordinates(cluster: ClusterRef, place: Place)

  function ArgumentsOf(a: Option<Arguments>): Arguments {
    if a.Some? then a.value else map[]
  }

  function CoordinatesOf(r: Resource): Coordinates {
    match r
    case QueueResource(q) => Coordinates(q.cluster, QueueAt(q.vhost, q.name))
    case ExchangeResource(x) => Coordinates(x.cluster, ExchangeAt(x.vhost, x.name))
    case BindingResource(b) => Coordinates(b.cluster, BindingAt(b.vhost, b.source, b.destination,
                                 b.destinationType, b.routingKey, ArgumentsOf(b.arguments)))
  }

  /** Two resources are one thing in the broker exactly when they are of one kind, in one cluster and
      vhost, and named or connected alike. */
  lemma SamePlaceMeans(a: Resource, b: Resource)
    ensures CoordinatesOf(a) == CoordinatesOf(b) <==>
              match (a, b)
              case (QueueResource(q), QueueResource(q')) => q.cluster == q'.cluster && q.vhost == q'.vhost && q.name == q'.name
              case (ExchangeResource(x), ExchangeResource(x')) => x.cluster == x'.cluster && x.vhost == x'.vhost && x.name == x'.name
              case (BindingResource(c), BindingResource(c')) =>
                && c.cluster == c'.cluster && c.vhost == c'.vhost && c.source == c'.source && c.destination == c'.destination
                && c.destinationType == c'.destinationType && c.routingKey == c'.routingKey
                && (c.arguments == c'.arguments || (c.arguments in [None, Some(map[])] && c'.arguments in [None, Some(map[])]))
              case _ => false
  {
  }

  predicate UpdateAllowed(prev: Resource, next: Resource) {
    match (prev, next)
    case (QueueResource(o), QueueResource(n)) => QueueUpdateAllowed(o, n)
    case (ExchangeResource(o), ExchangeResource(n)) => ExchangeUpdateAllowed(o, n)
    case (BindingResource(o), BindingResource(n)) => BindingUpdateAllowed(o, n)
    case _ => false
  }

  /** What may always be edited: nothing at all, how a queue is deleted, the arguments of an exchange. */
  lemma FreeEdits(r: Resource, empty: bool, unused: bool, policy: string, arguments: Option<Arguments>)
    ensures UpdateAllowed(r, r)
    ensures r.QueueResource? ==>
              UpdateAllowed(r, QueueResource(r.queue.(deleteIfEmpty := empty, deleteIfUnused := unused, deletionPolicy := policy)))
    ensures r.ExchangeResource? ==> UpdateAllowed(r, ExchangeResource(r.exchange.(arguments := arguments)))
  {
  }

  /** A resource's successive versions, each let in by the webhook. */
  predicate AcceptedChain(versions: seq<Resource>) {
    forall i :: 0 < i < |versions| ==> UpdateAllowed(versions[i-1], versions[i])
  }

  /** Stable identity: whatever version was declared, the version being deleted names the same
      broker and the same place in it. */
  lemma {:induction false} StableIdentity(versions: seq<Resource>, declared: nat, deleted: nat)
    requires AcceptedChain(versions)
    requires declared <= deleted < |versions|
    ensures CoordinatesOf(versions[declared]) == CoordinatesOf(versions[deleted])
    decreases deleted
  {
    if declared < deleted {
      StableIdentity(versions, declared, deleted - 1);
      assert UpdateAllowed(versions[deleted-1], versions[deleted]);
    }
  }

  // ---------------------------------------------------------------- quorum queues are durable

  /** The defaulting webhook, run on create only. */
  function Defaulted(q: QueueSpec): QueueSpec {
    if q.durable.None? then q.(durable := Some(true)) else q
  }

  predicate QueueCreateAllowed(q: QueueSpec) {
    !(q.kind == "quorum" && !Deref(q.durable, false)) && ReferenceValid(q.cluster)
  }

  /** The settings sent to the broker when a queue is declared. */
  datatype QueueSettings = QueueSettings(kind: string, durable: bool, autoDelete: bool, arguments: Arguments)

  function SettingsOf(q: QueueSpec): QueueSettings {
    QueueSettings(q.kind, Deref(q.durable, false), q.autoDelete, ArgumentsOf(q.arguments))
  }

  /** What a request that passes the create webhooks is: anything but a quorum queue that asks not to be
      durable, with a valid reference. */
  lemma CreateAllowedMeans(request: QueueSpec)
    ensures QueueCreateAllowed(Defaulted(request)) <==>
              && !(request.kind == "quorum" && request.durable == Some(false))
              && (request.cluster.name != "" <==> request.cluster.connectionSecret.None?)
  {
  }

  /** Every version of a queue that went through defaulting, an accepted create and accepted
      updates is declared with the settings of the request, durable unless that said otherwise; so a
      quorum queue is always declared durable. */
  lemma {:induction false} QuorumMeansDurable(request: QueueSpec, versions: seq<QueueSpec>, k: nat)
    requires k < |versions| && versions[0] == Defaulted(request) && QueueCreateAllowed(versions[0])
    requires forall i :: 0 < i < |versions| ==> QueueUpdateAllowed(versions[i-1], versions[i])
    ensures var sent := SettingsOf(versions[k]);
            && sent.kind == request.kind && sent.autoDelete == request.autoDelete
            && sent.durable == (request.durable != Some(false))
            && sent.arguments == (if request.arguments.Some? then request.arguments.value else map[])
    ensures SettingsOf(versions[k]).kind == "quorum" ==> SettingsOf(versions[k]).durable
  {
    if k > 0 {
      QuorumMeansDurable(request, versions, k - 1);
      assert QueueUpdateAllowed(versions[k-1], versions[k]);
    }
  }
}
