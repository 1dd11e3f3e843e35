/** SuperStreams: the admission rules, the routing keys in effect, and the 1 + 2n child resources a
    SuperStream of n partitions expands to. */
module SuperStreams {
  import opened Types
  import opened Admission
  import opened Decimals
  import ClusterReferences

  /** `partitions` is a Go int and may be negative. `name` is required but the controller names
      everything after the object, not after spec.name. */
  datatype SuperStreamSpec = SuperStreamSpec(
    name: string, vhost: string, partitions: int, routingKeys: seq<string>, cluster: ClusterRef)

  /** The object's own name and namespace, which never change. */
  datatype Owner = Owner(name: string, namespace: string)

  // ---------------------------------------------------------------- admission

  /** routingKeyUpdatePermitted indexes the new list at every index of the old one. */
  datatype Permit = Permitted | Denied | IndexOutOfRange

  function RoutingKeyUpdate(prev: seq<string>, next: seq<string>): Permit {
    if |prev| == 0 && |next| != 0 then Denied else ScanKeys(prev, next, 0)
  }

  function ScanKeys(prev: seq<string>, next: seq<string>, i: nat): Permit
    decreases |prev| - i
  {
    if i >= |prev| then Permitted
    else if i >= |next| then IndexOutOfRange
    else if prev[i] != next[i] then Denied
    else ScanKeys(prev, next, i + 1)
  }

  lemma {:induction false} ScanKeysMeans(prev: seq<string>, next: seq<string>, i: nat)
    requires i <= |prev| && i <= |next| && prev[..i] == next[..i]
    ensures ScanKeys(prev, next, i).Permitted? <==> prev <= next
    ensures ScanKeys(prev, next, i).IndexOutOfRange? <==> next < prev
    decreases |prev| - i
  {
    if i < |prev| && i < |next| {
      if prev[i] == next[i] {
        assert prev[..i+1] == prev[..i] + [prev[i]] && next[..i+1] == next[..i] + [next[i]];
        ScanKeysMeans(prev, next, i + 1);
      } else {
        assert !(prev <= next) && !(next <= prev);
      }
    } else if i >= |prev| {
      assert prev == prev[..i] && prev <= next;
    } else {
      assert next == next[..i] && next < prev;
    }
  }

  /** The rule lets in exactly the updates that keep the list and may add to its end, except that
      an empty list stays empty; it reads past the end of the new list exactly when that list is a
      shorter beginning of the old one. */
  lemma RoutingKeyUpdateMeans(prev: seq<string>, next: seq<string>)
    ensures RoutingKeyUpdate(prev, next).Permitted? <==> prev <= next && (prev == [] ==> next == [])
    ensures RoutingKeyUpdate(prev, next).IndexOutOfRange? <==> next < prev
  {
    ScanKeysMeans(prev, next, 0);
  }

  predicate SuperStreamUpdateAllowed(prev: SuperStreamSpec, next: SuperStreamSpec) {
    && next.name == prev.name && next.vhost == prev.vhost && Matches(prev.cluster, next.cluster)
    && RoutingKeyUpdate(prev.routingKeys, next.routingKeys).Permitted?
    && next.partitions >= prev.partitions
  }

  /** What the webhook answers; `Panic` stands for the index out of range. */
  datatype Answer = LetIn | TurnedDown(field: string) | Panic

  /** The SuperStream webhook's update rule: name, vhost and reference stay, routing keys may be added
      at the end of a non-empty list, and the number of partitions may grow. */
  method ValidateSuperStreamUpdate(prev: SuperStreamSpec, next: SuperStreamSpec) returns (v: Answer)
    ensures v.LetIn? <==>
              && next.name == prev.name && next.vhost == prev.vhost && next.cluster == prev.cluster
              && prev.routingKeys <= next.routingKeys && (prev.routingKeys == [] ==> next.routingKeys == [])
              && next.partitions >= prev.partitions
    ensures v.LetIn? <==> SuperStreamUpdateAllowed(prev, next)
    ensures v == TurnedDown("name") <==> next.name != prev.name
    ensures v == TurnedDown("vhost") <==> next.name == prev.name && next.vhost != prev.vhost
    ensures v == TurnedDown("rabbitmqClusterReference") <==>
              next.name == prev.name && next.vhost == prev.vhost && next.cluster != prev.cluster
    ensures var here := next.name == prev.name && next.vhost == prev.vhost && next.cluster == prev.cluster;
            && (v.Panic? <==> here && next.routingKeys < prev.routingKeys)
            && (v == TurnedDown("partitions") <==>
                  && here && prev.routingKeys <= next.routingKeys && (prev.routingKeys == [] ==> next.routingKeys == [])
                  && next.partitions < prev.partitions)
    ensures v.TurnedDown? ==> v.field in ["name", "vhost", "rabbitmqClusterReference", "routingKeys", "partitions"]
  {
    RoutingKeyUpdateMeans(prev.routingKeys, next.routingKeys);
    if next.name != prev.name { return TurnedDown("name"); }
    if next.vhost != prev.vhost { return TurnedDown("vhost"); }
    if !Matches(prev.cluster, next.cluster) { return TurnedDown("rabbitmqClusterReference"); }
    match RoutingKeyUpdate(prev.routingKeys, next.routingKeys) {
      case IndexOutOfRange => return Panic;
      case Denied => return TurnedDown("routingKeys");
      case Permitted =>
    }
    v := if next.partitions < prev.partitions then TurnedDown("partitions") else LetIn;
  }

  /** Every scale-up is let in: more partitions, and with a non-empty list of keys any keys added at its
      end. */
  lemma ScaleUpAllowed(spec: SuperStreamSpec, n: int, more: seq<string>)
    requires n >= spec.partitions
    ensures SuperStreamUpdateAllowed(spec, spec.(partitions := n))
    ensures spec.routingKeys != [] ==> SuperStreamUpdateAllowed(spec, spec.(partitions := n, routingKeys := spec.routingKeys + more))
  {
    RoutingKeyUpdateMeans(spec.routingKeys, spec.routingKeys);
    RoutingKeyUpdateMeans(spec.routingKeys, spec.routingKeys + more);
  }

  // ---------------------------------------------------------------- routing keys in effect

  function GeneratedKeys(n: int): seq<string> {
    seq(if n < 0 then 0 else n, i requires i >= 0 => Decimal(i))
  }

  /** The keys a reconcile works with; None when their number does not match the partitions. */
  function EffectiveKeys(spec: SuperStreamSpec): Option<seq<string>> {
    if spec.routingKeys == [] then Some(GeneratedKeys(spec.partitions))
    else if |spec.routingKeys| != spec.partitions then None
    else Some(spec.routingKeys)
  }

  /** The key of partition i, whenever some reconcile of the spec could use one. */
  predicate HasKey(spec: SuperStreamSpec, i: nat) {
    if spec.routingKeys == [] then i < spec.partitions else i < |spec.routingKeys|
  }

  function KeyAt(spec: SuperStreamSpec, i: nat): string
    requires HasKey(spec, i)
  {
    if spec.routingKeys == [] then Decimal(i) else spec.routingKeys[i]
  }

  /** The keys in effect: those of the spec if their number is that of the partitions, and numerals if
      the spec has none. */
  lemma EffectiveKeysMeans(spec: SuperStreamSpec)
    ensures EffectiveKeys(spec).None? <==> spec.routingKeys != [] && |spec.routingKeys| != spec.partitions
    ensures EffectiveKeys(spec).Some? && spec.routingKeys != [] ==> EffectiveKeys(spec).value == spec.routingKeys
    ensures spec.routingKeys == [] ==>
              && |EffectiveKeys(spec).value| == (if spec.partitions < 0 then 0 else spec.partitions)
              && forall i :: 0 <= i < |EffectiveKeys(spec).value| ==> Value(EffectiveKeys(spec).value[i]) == i
  {
    forall i | 0 <= i < |GeneratedKeys(spec.partitions)| ensures Value(GeneratedKeys(spec.partitions)[i]) == i {
      DecimalRoundTrip(i);
    }
  }

  lemma EffectiveKeysAt(spec: SuperStreamSpec, i: nat)
    requires EffectiveKeys(spec).Some? && i < |EffectiveKeys(spec).value|
    ensures HasKey(spec, i) && EffectiveKeys(spec).value[i] == KeyAt(spec, i)
  {
  }

  /** Accepted updates never move a partition to another key. */
  lemma KeysStable(prev: SuperStreamSpec, next: SuperStreamSpec, i: nat)
    requires SuperStreamUpdateAllowed(prev, next) && HasKey(prev, i)
    ensures HasKey(next, i) && KeyAt(next, i) == KeyAt(prev, i)
  {
    RoutingKeyUpdateMeans(prev.routingKeys, next.routingKeys);
  }

  /** generateRoutingKeys. */
  method GenerateRoutingKeys(n: int) returns (keys: seq<string>)
    ensures keys == GeneratedKeys(n)
  {
    keys := [];
    var i := 0;
    while i < n
      invariant 0 <= i && (n < 0 ==> i == 0) && (0 <= n ==> i <= n)
      invariant keys == GeneratedKeys(i)
    {
      keys := keys + [Decimal(i)];
      i := i + 1;
    }
  }

  // ---------------------------------------------------------------- children and their names

  datatype Slot = ExchangeSlot | PartitionSlot(index: nat) | BindingSlot(index: nat)

  /** The name of the child resource. */
  function ChildName(owner: string, slot: Slot): string {
    match slot
    case ExchangeSlot => owner + "-exchange"
    case PartitionSlot(i) => owner + "-partition-" + Decimal(i)
    case BindingSlot(i) => owner + "-binding-" + Decimal(i)
  }

  /** Different children have different names. */
  lemma ChildNamesDistinct(owner: string, a: Slot, b: Slot)
    requires ChildName(owner, a) == ChildName(owner, b)
    ensures a == b
  {
    var n := |owner|;
    var s, t := ChildName(owner, a), ChildName(owner, b);
    assert s[n+1] == t[n+1];
    assert s[n+1] == (match a case ExchangeSlot => 'e' case PartitionSlot(_) => 'p' case BindingSlot(_) => 'b');
    assert t[n+1] == (match b case ExchangeSlot => 'e' case PartitionSlot(_) => 'p' case BindingSlot(_) => 'b');
    if a.PartitionSlot? {
      assert s[n+11..] == Decimal(a.index) && t[n+11..] == Decimal(b.index);
      DecimalInjective(a.index, b.index);
    } else if a.BindingSlot? {
      assert s[n+9..] == Decimal(a.index) && t[n+9..] == Decimal(b.index);
      DecimalInjective(a.index, b.index);
    }
  }

  /** RoutingKeyToPartitionName: the name of the stream in the broker. */
  function PartitionQueue(owner: string, key: string): string {
    owner + "-" + key
  }

  /** PartitionNameToRoutingKey, with strings.TrimPrefix. */
  function KeyOfPartitionQueue(owner: string, queue: string): string {
    if owner + "-" <= queue then queue[|owner| + 1..] else queue
  }

  /** The key comes back from the stream's name; so streams coincide exactly when their keys do. */
  lemma PartitionQueueRoundTrip(owner: string, key: string, key': string)
    ensures KeyOfPartitionQueue(owner, PartitionQueue(owner, key)) == key
    ensures PartitionQueue(owner, key) == PartitionQueue(owner, key') <==> key == key'
  {
    var prefix := owner + "-";
    assert PartitionQueue(owner, key) == prefix + key && (prefix + key)[|prefix|..] == key;
    assert PartitionQueue(owner, key') == prefix + key' && (prefix + key')[|prefix|..] == key';
  }

  datatype Child =
    | ExchangeChild(exchange: ExchangeSpec)
    | QueueChild(queue: QueueSpec)
    | BindingChild(binding: BindingSpec)

  predicate Fits(slot: Slot, c: Child) {
    match slot
    case ExchangeSlot => c.ExchangeChild?
    case PartitionSlot(_) => c.QueueChild?
    case BindingSlot(_) => c.BindingChild?
  }

  /** The cluster the children refer to: by name, in a resolved namespace. */
  function ChildCluster(owner: Owner, spec: SuperStreamSpec): ClusterRef {
    ClusterRef(spec.cluster.name, if spec.cluster.namespace == "" then owner.namespace else spec.cluster.namespace, None)
  }

  /** A reference of a child, which lives in the owner's namespace, is by name and selects exactly the
      cluster that the SuperStream's own reference names from there. */
  ghost predicate SelectsAlike(owner: Owner, spec: SuperStreamSpec, child: ClusterRef) {
    && child.connectionSecret.None?
    && forall k: ClusterReferences.Key ::
         ClusterReferences.Selects(child, owner.namespace, k) <==>
           k.name == spec.cluster.name && k.namespace == if spec.cluster.namespace == "" then owner.namespace else spec.cluster.namespace
  }

  /** Build: an empty resource of the right kind. */
  function Blank(slot: Slot): (c: Child)
    ensures Fits(slot, c)
  {
    var nowhere := ClusterRef("", "", None);
    match slot
    case ExchangeSlot => ExchangeChild(ExchangeSpec("", "", "", false, false, None, nowhere))
    case PartitionSlot(_) => QueueChild(QueueSpec("", "", "", None, false, false, false, None, nowhere, ""))
    case BindingSlot(_) => BindingChild(BindingSpec("", "", "", "", "", None, nowhere))
  }

  /** The spec has a key for the slot. */
  predicate Keyed(spec: SuperStreamSpec, slot: Slot) {
    slot.ExchangeSlot? || HasKey(spec, slot.index)
  }

  /** Update: the fields the controller sets; all others stay as they are. */
  function Updated(owner: Owner, spec: SuperStreamSpec, slot: Slot, c: Child): (r: Child)
    requires Fits(slot, c) && Keyed(spec, slot)
    ensures Fits(slot, r)
  {
    var cluster := ChildCluster(owner, spec);
    match slot
    case ExchangeSlot =>
      ExchangeChild(c.exchange.(durable := true, name := owner.name, vhost := spec.vhost, cluster := cluster))
    case PartitionSlot(i) =>
      QueueChild(c.queue.(name := PartitionQueue(owner.name, KeyAt(spec, i)), durable := Some(true),
                          kind := "stream", vhost := spec.vhost, cluster := cluster))
    case BindingSlot(i) =>
      BindingChild(c.binding.(source := owner.name, destinationType := "queue",
                              destination := PartitionQueue(owner.name, KeyAt(spec, i)),
                              routingKey := KeyAt(spec, i), vhost := spec.vhost, cluster := cluster,
                              arguments := Some(map["x-stream-partition-order" := Decimal(i)])))
  }

  /** What the API server stores: schema defaults fill empty fields on every write. */
  function Stored(c: Child): Child {
    match c
    case ExchangeChild(x) =>
      ExchangeChild(x.(vhost := if x.vhost == "" then "/" else x.vhost, kind := if x.kind == "" then "direct" else x.kind))
    case QueueChild(q) =>
      QueueChild(q.(vhost := if q.vhost == "" then "/" else q.vhost,
                    deletionPolicy := if q.deletionPolicy == "" then "delete" else q.deletionPolicy))
    case BindingChild(b) =>
      BindingChild(b.(vhost := if b.vhost == "" then "/" else b.vhost))
  }

  /** The child is what the controller would make of it: writing it again changes nothing. */
  predicate Settled(owner: Owner, spec: SuperStreamSpec, slot: Slot, c: Child) {
    Fits(slot, c) && Keyed(spec, slot) && Stored(Updated(owner, spec, slot, c)) == c
  }

  /** One write settles a child, whatever it was. */
  lemma WriteSettles(owner: Owner, spec: SuperStreamSpec, slot: Slot, c: Child)
    requires Fits(slot, c) && Keyed(spec, slot)
    ensures Settled(owner, spec, slot, Stored(Updated(owner, spec, slot, c)))
  {
  }

  /** What settled children are: a durable exchange, a durable stream named after key i, and a binding
      that routes key i from the one to the other with order i, all in one place. */
  lemma SettledMeans(owner: Owner, spec: SuperStreamSpec, i: nat, x: Child, p: Child, b: Child)
    requires Settled(owner, spec, ExchangeSlot, x) && Settled(owner, spec, PartitionSlot(i), p) && Settled(owner, spec, BindingSlot(i), b)
    ensures x.ExchangeChild? && x.exchange.name == owner.name && x.exchange.durable
    ensures && p.QueueChild? && p.queue.name == owner.name + "-" + KeyAt(spec, i)
            && p.queue.kind == "stream" && p.queue.durable == Some(true)
    ensures && b.BindingChild? && b.binding.source == x.exchange.name
            && b.binding.destination == p.queue.name && b.binding.destinationType == "queue"
            && b.binding.routingKey == KeyAt(spec, i)
            && b.binding.arguments == Some(map["x-stream-partition-order" := Decimal(i)])
    ensures x.exchange.cluster == p.queue.cluster == b.binding.cluster && SelectsAlike(owner, spec, x.exchange.cluster)
    ensures x.exchange.vhost == p.queue.vhost == b.binding.vhost == if spec.vhost == "" then "/" else spec.vhost
  {
  }

  /** What a created child is beyond that: a plain direct exchange, a stream that goes with its
      resource. */
  lemma CreatedMeans(owner: Owner, spec: SuperStreamSpec, slot: Slot)
    requires Keyed(spec, slot)
    ensures match Stored(Updated(owner, spec, slot, Blank(slot)))
            case ExchangeChild(x) => slot.ExchangeSlot? && x.kind == "direct" && !x.autoDelete && x.arguments.None?
            case QueueChild(q) =>
              && slot.PartitionSlot? && !q.autoDelete && !q.deleteIfEmpty && !q.deleteIfUnused
              && q.arguments.None? && q.deletionPolicy == "delete"
            case BindingChild(_) => slot.BindingSlot?
  {
  }

  /** And what the controller leaves to others. */
  lemma UpdatedKeeps(owner: Owner, spec: SuperStreamSpec, slot: Slot, c: Child)
    requires Fits(slot, c) && Keyed(spec, slot)
    ensures match (c, Updated(owner, spec, slot, c))
            case (ExchangeChild(x), ExchangeChild(x')) => x'.kind == x.kind && x'.autoDelete == x.autoDelete && x'.arguments == x.arguments
            case (QueueChild(q), QueueChild(q')) =>
              && q'.autoDelete == q.autoDelete && q'.deleteIfEmpty == q.deleteIfEmpty && q'.deleteIfUnused == q.deleteIfUnused
              && q'.arguments == q.arguments && q'.deletionPolicy == q.deletionPolicy
            case (BindingChild(_), BindingChild(_)) => true
            case _ => false
  {
  }

  predicate ChildUpdateAllowed(prev: Child, next: Child) {
    match (prev, next)
    case (ExchangeChild(o), ExchangeChild(n)) => ExchangeUpdateAllowed(o, n)
    case (QueueChild(o), QueueChild(n)) => QueueUpdateAllowed(o, n)
    case (BindingChild(o), BindingChild(n)) => BindingUpdateAllowed(o, n)
    case _ => false
  }

  predicate ChildCreateAllowed(c: Child) {
    match c
    case ExchangeChild(x) => ReferenceValid(x.cluster)
    case QueueChild(q) => QueueCreateAllowed(Defaulted(q))
    case BindingChild(b) => ReferenceValid(b.cluster)
  }

  /** What the webhooks of the children let in at creation. */
  lemma ChildCreateMeans(c: Child)
    ensures ChildCreateAllowed(c) <==>
              match c
              case ExchangeChild(x) => x.cluster.name != "" <==> x.cluster.connectionSecret.None?
              case QueueChild(q) =>
                (q.cluster.name != "" <==> q.cluster.connectionSecret.None?) && !(q.kind == "quorum" && q.durable == Some(false))
              case BindingChild(b) => b.cluster.name != "" <==> b.cluster.connectionSecret.None?
  {
  }

  // ---------------------------------------------------------------- the builders, in order

  function SlotAt(k: nat): Slot {
    if k == 0 then ExchangeSlot else if k % 2 == 1 then PartitionSlot((k - 1) / 2) else BindingSlot((k - 2) / 2)
  }

  /** One exchange, then a partition and a binding for each key. */
  function Slots(n: nat): seq<Slot> {
    seq(1 + 2 * n, k requires k >= 0 => SlotAt(k))
  }

  method BuilderList(keys: seq<string>) returns (slots: seq<Slot>)
    ensures slots == Slots(|keys|)
    ensures slots[0] == ExchangeSlot
    ensures forall i :: 0 <= i < |keys| ==> slots[1 + 2 * i] == PartitionSlot(i) && slots[2 + 2 * i] == BindingSlot(i)
  {
    slots := [ExchangeSlot];
    for index := 0 to |keys|
      invariant slots == Slots(index)
    {
      slots := slots + [PartitionSlot(index), BindingSlot(index)];
    }
  }

  lemma SlotsDistinct(j: nat, k: nat)
    requires SlotAt(j) == SlotAt(k)
    ensures j == k
  {
  }
}
