/** The custom resources the operator manages, as far as the model reads them. */
module Types {

  datatype Option<+T> = None | Some(value: T)

  /** Queue, exchange and binding arguments, decoded: a flat map in one canonical form. */
  type Arguments = map<string, string>

  /** A reference to a RabbitMQ cluster: by name, or through a connection secret. */
  datatype ClusterRef = ClusterRef(name: string, namespace: string, connectionSecret: Option<string>)

  datatype QueueSpec = QueueSpec(
    name: string, vhost: string, kind: string, durable: Option<bool>, autoDelete: bool,
    deleteIfEmpty: bool, deleteIfUnused: bool, arguments: Option<Arguments>,
    cluster: ClusterRef, deletionPolicy: string)

  datatype ExchangeSpec = ExchangeSpec(
    name: string, vhost: string, kind: string, durable: bool, autoDelete: bool,
    arguments: Option<Arguments>, cluster: ClusterRef)

  datatype BindingSpec = BindingSpec(
    vhost: string, source: string, destination: string, destinationType: string,
    routingKey: string, arguments: Option<Arguments>, cluster: ClusterRef)

  function Deref(b: Option<bool>, default: bool): bool {
    if b.Some? then b.value else default
  }
}
