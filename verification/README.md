# Messaging topology operator: verified model

A Dafny model of the RabbitMQ messaging topology operator: a Kubernetes operator that declares queues, exchanges, bindings, users, limits and super streams in a RabbitMQ broker from custom resources, and deletes them when the resources go. The operator works on three stores it does not control: the API server, a cache that lags behind it, and the broker. It may stop between any two calls, its writes may conflict, and a call may take effect although its answer is lost. The results are statements over every run under those conditions.

`dafny verify dfyconfig.toml` checks the whole project.

## How it is modelled

The API server is an append-only log of stored versions, an index in the log being the resource version. The cache is an index into the log that only moves forward. A reconcile holds the index of the version it read. Every API or broker call is one event that carries its outcome, and users, the cache, crashes and the broker are events too. A disabled event changes nothing, so a run is any finite list of events. Each machine has an inductive invariant and one preservation lemma per step.

`TopologyReconciler`, `UserReconciler` and `SuperStreamReconciler` are the same reconciles as sequential programs that work on the stores in place. Each is proved to be a run of its machine, so the results about all runs hold of it. In the first two, other writers act between any two calls; the third carries a ghost copy of its machine along and says exactly what an undisturbed reconcile with one failing write leaves behind.

| file | content |
|---|---|
| `FinalizerProtocol.dfy`, `TopologyReconciling.dfy` | the reconcile of a Queue, Exchange or Binding |
| `SuperStreams.dfy`, `SuperStreamRuns.dfy`, `AdmissionClosure.dfy`, `SuperStreamReconciling.dfy` | the SuperStream, its webhook, its children and their webhooks |
| `UserCredentials.dfy`, `UserProgress.dfy`, `UserReconciling.dfy` | secrets, status and broker users of a User |
| `Admission.dfy`, `Permissions.dfy` | admission rules and what they keep |
| `ClusterReferences.dfy`, `WakeUp.dfy` | resolving a cluster, and waking what waits for it |
| `BindingIdentity.dfy`, `QueueDeletion.dfy`, `Limits.dfy`, `Conditions.dfy` | the algorithms underneath |
| `Types.dfy`, `Decimals.dfy` | shared data types and numerals |

Assumptions: one reconcile per object at a time; the cache never moves back; stale writes conflict; an update that changes nothing is not stored; marking an object for deletion raises its generation; only the operator edits its finalizer and the status; a 2xx answer to a deletion means the object was removed and a 404 that it is absent (section 15.5.5 of RFC 9110). "The cluster is missing" means that the operator was told so: any failed read of the cluster is reported that way. The results about the topology reconciler assume that updates of Queue, Exchange and Binding resources pass their webhooks; `WakeUp` assumes that listing resources succeeds. The properties key of a binding is its escaped routing key, followed, if it has arguments, by `~` and a non-empty hash of them that contains no `~`; different arguments may have one hash. Deleting by properties key removes every binding between the two end points that has this key. A resource has a non-empty name.

## What the model found

- `routingKeyUpdatePermitted` reads past the end of the new list exactly when that list is a proper prefix of the old one (`RoutingKeyUpdateMeans`). The model treats this as not accepted.
- One lost answer can leave a resource that cannot be deleted. DeleteFunc reads a quorum queue with deleteIfEmpty or deleteIfUnused before it deletes it, and fails if the queue is not there (`internal/controller/queue_controller.go:57-61`). Once the queue is gone from the broker, no reconcile removes the finalizer until someone edits the spec or recreates the queue, or the cluster is reported missing or at zero (`StuckForever`, `DeletableExactly`); the operator gets there by itself when the answer to its one successful deletion is lost (`LostAnswerSticks`).
- A properties key names one routing key exactly when the routing key contains neither `~` nor `%7E` (`KeyNamesOneRoutingKey`). A deletion removes exactly the declared binding if and only if no other binding between the end points has its key (`BindingReconciler.DeleteFunc`). That is so in every broker exactly when the routing key has neither of them and no other arguments have the hash of its own (`AlwaysExactWhen`); otherwise, with arguments or without, there is a broker in which another binding goes with it (`AmbiguousDeletionHitsAnother`). Percent-encoding is that of section 2.1 of RFC 3986.
- Wake-ups are lost exactly for references into another namespace that the cluster watch does not cover (`WakeUpsKeptExactly`). A resource whose connection secret refused it sleeps on after the secret allows it (`SecretLosesWakeUp`), and so does a SuperStream whose cluster refused it (`SuperStreamLosesWakeUp`), whose controller watches only its children. Until then a change of the resource, a restart, or something else its controller watches wakes it: the credentials secret of a User, the children of a SuperStream. A periodic resync, where one is configured, counts as a change of the resource.
- A Permission with both a user and a missing userReference makes DeclareFunc dereference nil, and nothing else does (`NilDereferenceExactly`); admission excludes it.
- A User whose username moved leaves the earlier broker user behind (`MovedNameStays`); one whose username never moved leaves none (`OneNameMeansGone`).
- The comment at `internal/controller/user_controller.go:236-238` says an existing generated secret gets the label. The cache holds labelled secrets only (`cmd/main.go:278-283`), so the code does not find an unlabelled one, tries to create it and fails (`UnlabelledNeverAdopted`); a secret that nobody owns is adopted if and only if it carries the label (`AdoptedExactly`). The model follows the code.
- `spec.name` of a SuperStream does not reach its children; they are named after the resource itself.

## Model

| member | source | states |
|---|---|---|
| FinalizerProtocol.RunKeeps | internal/controller/topology_controller.go:55-204 | the invariant that ties finalizer, deletion mark, cache, reconcile phase, broker contents and reported generations together survives every run |
| FinalizerProtocol.NoLeak | internal/controller/topology_controller.go:79-107 | in every run each broker entry the operator made belongs to the stored resource, which still holds the finalizer and names that place, or to a marked resource released by policy retain, a reported missing cluster or a cluster at zero |
| FinalizerProtocol.GoneMeansGone | internal/controller/utils.go:90-97 | once the resource is gone and nothing was released, the broker holds nothing the operator declared |
| FinalizerProtocol.NeverDeletesLive | internal/controller/topology_controller.go:89-99 | a deletion based on a stale cache never hits what was declared for a live successor with the same name |
| FinalizerProtocol.ShownAfterRelease | internal/controller/topology_controller.go:89-101 | when the finalizer goes, no version the cache can still show leads to a new declaration |
| FinalizerProtocol.RegisterKeeps | internal/controller/utils.go:79-88 | adding the finalizer keeps the invariant: it is stored on the current version only, and nothing is declared before that |
| FinalizerProtocol.GenerationNamesSpec | internal/controller/topology_controller.go:206-221 | two versions of a resource with one generation have one spec |
| FinalizerProtocol.TruthfulGeneration | internal/controller/topology_controller.go:107-123 | a stored observedGeneration g > 0 means DeclareFunc succeeded on the spec that every version of generation g has |
| FinalizerProtocol.GenerationMonotone | internal/controller/topology_controller.go:107-123 | observedGeneration never exceeds the generation and never decreases, with failed and conflicting writes |
| FinalizerProtocol.ReadyMeansDeclared | internal/controller/topology_controller.go:107-123 | in every run a version stored as Ready has an observed generation on which DeclareFunc had succeeded |
| FinalizerProtocol.FailureIsReported | internal/controller/topology_controller.go:107-116 | from any state, a reconcile of the current version whose declaration fails or looks failed leaves the object registered, NotReady and with the generation observed before |
| FinalizerProtocol.UnusableIsReported | internal/controller/topology_controller.go:170-203 | from any state, a reference that is not allowed or cannot be used, and for an unmarked object a cluster at zero, is stored as NotReady and changes nothing else |
| FinalizerProtocol.ReleasedWithoutDeletion | internal/controller/topology_controller.go:154-169 | from any state, a marked object whose cluster is missing or at zero, or a retained queue, is removed with that reason and the broker left alone |
| FinalizerProtocol.ReleasesWereReported | internal/controller/topology_controller.go:148-169 | in every run, a release for a missing cluster or one at zero was preceded by that very report |
| FinalizerProtocol.MissingClusterWaits | internal/controller/topology_controller.go:159-164 | an unmarked object whose cluster is missing is left as it is |
| FinalizerProtocol.GuardedQueueWaits | internal/controller/queue_controller.go:52-71 | a marked quorum queue whose guard holds or that cannot be read is left as it is, in the API server and the broker |
| FinalizerProtocol.DeletionCompletes | internal/controller/topology_controller.go:89-101 | from any state, one undisturbed reconcile of a marked, unretained object removes it from the API server and the broker, unless it is a guarded quorum queue the broker does not have |
| FinalizerProtocol.StuckForever | internal/controller/queue_controller.go:52-71 | a marked, guarded quorum queue that is gone from the broker keeps its finalizer in every run without a spec edit and without a report that the cluster is missing or at zero |
| FinalizerProtocol.DeletableExactly | internal/controller/queue_controller.go:52-71 | a marked, unretained object can be removed without such help if and only if it is not such a queue |
| FinalizerProtocol.LostAnswerSticks | internal/controller/queue_controller.go:52-71 | for every guarded quorum queue there is a run that ends stuck because the answer to its one deletion was lost |
| FinalizerProtocol.DeclarationCompletes | internal/controller/topology_controller.go:101-127 | from any state, one undisturbed reconcile of an unmarked object leaves it registered, declared, observed and Ready |
| TopologyReconciling.TopologyReconciler.RemoveFinalizer | internal/controller/utils.go:90-97 | is a run of the machine; without an error the finalizer has left the object |
| TopologyReconciling.TopologyReconciler.AddFinalizer | internal/controller/utils.go:79-88 | is a run of the machine; added means the current version now holds the finalizer |
| TopologyReconciling.TopologyReconciler.ReportStatus | internal/controller/topology_controller.go:140-146 | is a run of the machine; undisturbed, it stores Ready with the generation, or NotReady with the generation observed before |
| TopologyReconciling.TopologyReconciler.HandleParseError | internal/controller/topology_controller.go:148-204 | is a run of the machine from the reported error; which errors return nil and which do not, what nil means, and that undisturbed the object is stored as NotReady where it is not released |
| TopologyReconciling.TopologyReconciler.DeleteFunc | internal/controller/exchange_controller.go:39-50 | deletes unless retained; done only if retained, deleted, or known to be absent |
| TopologyReconciling.TopologyReconciler.Declare | internal/controller/topology_controller.go:107-127 | no error only if the spec that was read was declared; undisturbed, an error exactly if the declaration failed, and the status stored for either case |
| TopologyReconciling.TopologyReconciler.Reconcile | internal/controller/topology_controller.go:55-127 | every reconcile, however disturbed, is a run of the machine; if it returns nil the object it read is declared, released, unmarked with its cluster at zero, or not allowed; and a smooth one fails exactly on a guarded quorum queue that is gone |
| TopologyReconciling.TopologyReconciler.ReconcileForever | internal/controller/topology_controller.go:55-127 | after any number of reconciles everything in the broker is held or released |
| Admission.Matches | api/v1beta1/rabbitmq_cluster_reference.go:27-48 | the case analysis is equality of references |
| Admission.ReferenceValid | api/v1beta1/rabbitmq_cluster_reference.go:66-75 | a reference is by name or by connection secret, not both and not neither |
| Admission.ValidateQueueUpdate | internal/webhook/v1beta1/queue_webhook.go:57-143 | lets in exactly the updates that keep each of the immutable fields; names exactly the first moved field or lists exactly the changed ones |
| Admission.ValidateExchangeUpdate | internal/webhook/v1beta1/exchange_webhook.go:47-94 | the same for exchanges, whose arguments may change |
| Admission.ValidateBindingUpdate | internal/webhook/v1beta1/binding_webhook.go:65-124 | lets in exactly the updates that keep every field; forbids exactly moves |
| Admission.StableIdentity | internal/webhook/v1beta1/binding_webhook.go:65-124 | along any chain of accepted updates the coordinates and cluster of a declared version equal those of the deleted one |
| Admission.FreeEdits | internal/webhook/v1beta1/queue_webhook.go:57-143 | how a queue is deleted and the arguments of an exchange may always be edited |
| Admission.SamePlaceMeans | internal/controller/binding_controller.go:33-40 | two resources are one thing in the broker if and only if kind, cluster, vhost and name or ends, key and arguments agree |
| Admission.QuorumMeansDurable | internal/webhook/v1beta1/queue_webhook.go:39-97 | every version of an admitted queue is declared with type, autoDelete and arguments of the request and durable unless that said otherwise, so a quorum queue is durable |
| Admission.CreateAllowedMeans | internal/webhook/v1beta1/queue_webhook.go:39-50 | after defaulting, everything is let in but quorum queues that ask not to be durable and invalid references |
| SuperStreams.RoutingKeyUpdateMeans | internal/webhook/v1alpha1/superstream_webhook.go:83-93 | permitted exactly for extensions at the end, an empty list staying empty; out of range exactly for proper prefixes |
| SuperStreams.ValidateSuperStreamUpdate | internal/webhook/v1alpha1/superstream_webhook.go:48-75 | accepted if and only if name, vhost and reference are equal, the old keys are a prefix of the new ones (an empty list staying empty) and partitions do not shrink; each refusal, and the panic, with its exact cause |
| SuperStreams.ScaleUpAllowed | internal/webhook/v1alpha1/superstream_webhook.go:48-93 | every growth of the partitions, with any keys added at the end of a non-empty list, is accepted |
| SuperStreams.KeysStable | internal/webhook/v1alpha1/superstream_webhook.go:48-75 | an accepted update leaves every partition its key |
| SuperStreams.GenerateRoutingKeys | internal/controller/super_stream_controller.go:193-198 | the numerals of 0 to n-1 in order |
| SuperStreams.EffectiveKeysMeans | internal/controller/super_stream_controller.go:92-109 | the keys of the spec if their number is that of the partitions, numerals of 0 to n-1 if there are none, and otherwise a mismatch |
| Decimals.DecimalRoundTrip | internal/controller/super_stream_controller.go:193-198 | a numeral reads back as its number |
| SuperStreams.ChildNamesDistinct | internal/managedresource/superstream_binding.go:24-57 | different children of one SuperStream have different names |
| SuperStreams.PartitionQueueRoundTrip | internal/managedresource/superstream_partition.go:56-62 | the key comes back from the stream's name, so streams coincide exactly when keys do |
| SuperStreams.SettledMeans | internal/managedresource/superstream_binding.go:24-57 | children on which a write changes nothing are a durable exchange, a durable stream named after key i and a binding with order i that routes key i between them, in the vhost of the spec, and their reference selects exactly the cluster that the SuperStream names |
| SuperStreams.CreatedMeans | internal/managedresource/superstream_exchange.go:25-47 | the other fields of a created child |
| SuperStreams.UpdatedKeeps | internal/managedresource/superstream_partition.go:39-52 | the fields that an update leaves to others |
| SuperStreams.ChildCreateMeans | internal/webhook/v1beta1/binding_webhook.go:56-63 | what the webhooks of the children let in at creation, field by field |
| SuperStreams.BuilderList | internal/controller/super_stream_controller.go:117-124 | the exchange, then partition i and binding i for each key in order |
| SuperStreams.SlotsDistinct | internal/controller/super_stream_controller.go:117-124 | no child is built twice |
| SuperStreamRuns.RunKeeps | internal/controller/super_stream_controller.go:57-168 | the controller's invariant survives every run, with or without webhooks on the SuperStream and its children |
| SuperStreamRuns.PartitionsNeverShrink | internal/controller/super_stream_controller.go:72-90 | even without webhooks the stored partition list never gets shorter |
| SuperStreamRuns.ReadyMeansComplete | internal/controller/super_stream_controller.go:126-163 | Ready with observed generation g is stored only if one spec has that generation and each of its 1 + 2n children has a stored version that is what the controller makes of it for that spec |
| AdmissionClosure.RunAdm | internal/webhook/v1alpha1/superstream_webhook.go:48-93 | with webhooks on, every run keeps all stored children settled and all specs growing at the end |
| AdmissionClosure.NeverRefused | internal/webhook/v1alpha1/superstream_webhook.go:48-93 | no interleaving of accepted updates, child edits, deletions, crashes and stale reads makes a webhook refuse a child write of the controller |
| AdmissionClosure.ChildrenNeverRewritten | internal/controller/super_stream_controller.go:126-152 | every version of a child the cache may show is already what the controller would write |
| AdmissionClosure.CreatedIsSettled | internal/managedresource/superstream_partition.go:28-52 | a created child is accepted, and its update changes nothing |
| AdmissionClosure.EditedStaysSettled | internal/webhook/v1beta1/queue_webhook.go:57-143 | edits a child's webhook accepts leave the fields the controller sets |
| AdmissionClosure.PartitionsAppendOnly | internal/controller/super_stream_controller.go:72-109 | the stored list names the streams of a prefix of the keys in effect and only grows at its end |
| AdmissionClosure.RefusedExactlyWhenKeyMoves | internal/webhook/v1beta1/binding_webhook.go:65-124 | the queue and binding webhooks refuse the controller's update of partition i exactly if its key moved |
| SuperStreamReconciling.FanOutExact | internal/controller/super_stream_controller.go:117-163 | n keys give 1 + 2n children with distinct names, spelled out: a durable stream per key and a binding with order i from the exchange to stream i, in the vhost and cluster that the SuperStream names |
| SuperStreamReconciling.SuperStreamReconciler.CreateOrUpdate | internal/controller/super_stream_controller.go:126-152 | one step of the machine; writes exactly the wanted child, or nothing exactly when the write is needed and fails or is refused |
| SuperStreamReconciling.SuperStreamReconciler.ApplyChildren | internal/controller/super_stream_controller.go:126-152 | a run of the machine; stops exactly at the first child that cannot be written, with exactly the children before it applied and all else as before |
| SuperStreamReconciling.SuperStreamReconciler.Reconcile | internal/controller/super_stream_controller.go:57-168 | a run of the machine; each result if and only if its cause, with the children it leaves and the status it stores; Ready only with all children and the full list |
| SuperStreamReconciling.SuperStreamReconciler.Prepare | internal/controller/super_stream_controller.go:57-109 | the early ends and the routing keys, each if and only if its cause, with the status stored |
| SuperStreamReconciling.SuperStreamReconciler.ReconcileForever | internal/controller/super_stream_controller.go:126-152 | with webhooks on, over any number of edits and reconciles a child fails only where the API server failed its write |
| UserCredentials.RunKeeps | internal/controller/user_controller.go:48-283 | the invariant over successive Users of one name, secrets, broker users and reconcile phase survives every run |
| UserCredentials.CredentialsWrittenOnce | internal/controller/user_controller.go:79-101 | along any stretch of versions the operator wrote, the secret's data is that of the first |
| UserCredentials.OnlyTheGeneratedSecretIsWritten | internal/controller/user_controller.go:70-77 | imported and other secrets are only read |
| UserCredentials.PutsComeFromTheStore | internal/controller/user_controller.go:244-278 | every PutUser sends data the API server had stored in that secret, with a non-empty username that the status of that very User had recorded and a hash or a non-empty password |
| UserCredentials.StatusBeforeBroker | internal/controller/user_controller.go:194-283 | about to put, the version at hand already stores that username and the secret its spec asks for; with usernameFromMeta and no import it is the name of the User |
| UserCredentials.UnnamedMeansNeverPut | internal/controller/user_controller.go:354-361 | a User whose latest stored status has no username was never put in the broker |
| UserCredentials.SkipIsSafe | internal/controller/user_controller.go:358-361 | when a deletion is skipped, on whatever stale version, the broker holds no user of that User |
| UserCredentials.UsernameNeverLost | internal/controller/user_controller.go:166-181 | a recorded username is never replaced by an empty one |
| UserCredentials.DeletionLeavesOnlyEarlierNames | internal/controller/user_controller.go:354-370 | after a deletion through the broker the named user is gone; what is left of that User has a name given up earlier, whoever came after |
| UserCredentials.OneNameMeansGone | internal/controller/user_controller.go:354-370 | a User whose username never moved leaves nothing, whoever came after |
| UserCredentials.NeverDeletesLiveUser | internal/controller/user_controller.go:354-370 | a deletion based on an old cache never removes the broker user of a live successor, even with the same username |
| UserProgress.MovedNameStays | internal/controller/user_controller.go:210-216 | for any two usernames there is a run without failures in which the first outlives the User |
| UserProgress.RotationReachesBroker | internal/controller/user_controller.go:183-283 | with caches up to date one undisturbed reconcile puts the current credentials of any usable secret, owned or not yet, records their origin and reports Ready |
| UserProgress.GenerationReachesBroker | internal/controller/user_controller.go:233-283 | without a secret, one undisturbed reconcile generates credentials, stores them, puts exactly those and reports Ready |
| UserProgress.DeclarableExactly | internal/controller/user_controller.go:183-283 | with nobody editing the User or its secret, some run puts it in the broker if and only if, field by field: an import is labelled and has a username and a hash or password; a generated secret is absent, or also not owned by another and named as asked |
| UserProgress.BarredForever | internal/controller/user_controller.go:183-283 | for any other User no run puts anything |
| UserProgress.UndeclarableIsReported | internal/controller/user_controller.go:183-283 | such a User is stored as NotReady by one undisturbed reconcile |
| UserProgress.ReadyMeansPut | internal/controller/user_controller.go:183-283 | in every run a User stored as Ready was put in the broker |
| UserProgress.PutFailureIsReported | internal/controller/user_controller.go:276-278 | a put that failed or looked failed is stored as NotReady |
| UserProgress.LimitFailureIsReported | internal/controller/user_controller.go:282-306 | limits that could not be set are stored as NotReady |
| UserProgress.StatusWrittenOnlyWhenMoved | internal/controller/user_controller.go:208-216 | the status is written if and only if it does not already name this username and this secret |
| UserProgress.UnusableIsReported | internal/controller/topology_controller.go:170-203 | from any state, a reference of a User that cannot be used is stored as NotReady and changes nothing else |
| UserProgress.ReleasedWithoutDeletion | internal/controller/topology_controller.go:154-169 | from any state, a marked User whose cluster is missing or at zero is removed and the broker left alone |
| UserProgress.UnlabelledNeverAdopted | internal/controller/user_controller.go:233-248 | whatever the cache shows, an unlabelled secret under the generated name is never changed by the operator until others act on it |
| UserProgress.AdoptedExactly | internal/controller/user_controller.go:79-101 | a secret nobody owns can become the User's, with its data unchanged, if and only if it carries the label |
| UserReconciling.UserReconciler.CreateOrUpdate | internal/controller/user_controller.go:79-101 | stores new credentials only where there is no secret, at most marks an existing one, and leaves one owned by another User alone |
| UserReconciling.UserReconciler.DeclareCredentials | internal/controller/user_controller.go:48-110 | with its retries, is a run of the machine and never ends in a conflict |
| UserReconciling.UserReconciler.CheckCredentials | internal/controller/user_controller.go:135-164 | is a run of the machine; succeeds if and only if the cached secret has, field by field, what an imported or a generated one needs, and returns its data |
| UserReconciling.UserReconciler.SetUserStatus | internal/controller/user_controller.go:166-181 | is the record step of the machine; a failed write still leaves the new status in memory |
| UserReconciling.UserReconciler.PutUser | internal/user.go:31-58 | is a run of the machine; success means exactly this secret's data was sent |
| UserReconciling.UserReconciler.DeclareGenerated | internal/controller/user_controller.go:233-283 | no error only if the generated secret's data was sent last |
| UserReconciling.UserReconciler.DeclareFunc | internal/controller/user_controller.go:183-192 | no error only if credentials from the secret the spec asks for were sent last, for that User |
| UserReconciling.UserReconciler.DeleteFunc | internal/controller/user_controller.go:354-370 | is a run of the machine; done after a deletion or for an empty username |
| UserReconciling.UserReconciler.HandleParseError | internal/controller/topology_controller.go:148-204 | is a run of the machine from the reported error; which errors return nil and which do not, and what nil means |
| UserReconciling.UserReconciler.Reconcile | internal/controller/topology_controller.go:55-127 | every reconcile of a User is a run of the machine; nil means a marked User is gone, an unmarked one was put from the secret its spec asks for or has its cluster at zero, or the reference is not allowed; and a smooth one of a marked User, or of one its secret serves, does not fail |
| Limits.GenerateLimits | internal/user.go:60-71 | exactly the limits that are set, under their keys |
| Limits.LimitsToDelete | internal/controller/user_controller.go:320-330 | exactly the managed limits the broker has and the spec does not |
| Limits.LimitsReconciler.Reconcile | internal/controller/user_controller.go:285-306 | success makes managed limits equal to the spec and leaves others; any interruption keeps the target; nothing changes once it is reached |
| Limits.LimitsReconciler.Converge | internal/controller/vhost_controller.go:34-52 | after any number of failed or interrupted attempts, a success leaves what one undisturbed attempt on the original limits would; an undisturbed attempt succeeds |
| Limits.LimitsReconciler.ReconcileUser | internal/user.go:60-71 | success leaves max-connections and max-channels exactly as set; undisturbed it succeeds; other limits never change |
| Limits.LimitsReconciler.ReconcileVhost | internal/vhost_settings.go:25-36 | success leaves max-connections and max-queues exactly as set; undisturbed it succeeds; other limits never change |
| Limits.TargetAfterDelete | internal/controller/user_controller.go:294-300 | a partial deletion does not move the target |
| Limits.TargetAfterPut | internal/controller/user_controller.go:301-304 | a partial put does not move the target |
| Conditions.UpsertedFinds | api/v1beta1/conditions.go:71-79 | the condition of its type is set and every other type is untouched |
| Conditions.UpsertedOnePerKind | api/v1beta1/conditions.go:71-79 | at most one condition per type |
| Conditions.LastTransitionMeans | api/v1beta1/conditions.go:60-67 | the search yields the stored time exactly when the status did not change |
| Conditions.UserStatus.Upsert | api/v1beta1/conditions.go:71-79 | the loop over the slice computes the upsert |
| Conditions.UserStatus.SetStatusConditions | api/v1beta1/user_types.go:121-125 | every type given has the last condition given for it, every other type the one it had, and uniqueness per type is kept |
| Conditions.ConditionHistory | api/v1beta1/conditions.go:27-79 | over any reports each type has at most one condition, with the status last reported and the time it last changed |
| Conditions.ConditionWords | api/v1beta1/conditions.go:27-58 | types, reasons and messages are those of the last report, and PasswordSynced is there exactly after some sync |
| Permissions.NilDereferenceExactly | internal/controller/permission_controller.go:30-57 | a missing User is read exactly when both user and userReference are set and the User is missing |
| Permissions.GrantExactly | internal/controller/permission_controller.go:30-57 | a grant to this username with this owner if and only if the referenced User, or without a reference the spec, has that name |
| Permissions.PermissionRulesMean | internal/webhook/v1beta1/permission_webhook.go:55-130 | create and update are let in exactly for these fields |
| Permissions.AdmittedPermissionsNameOneUser | internal/webhook/v1beta1/permission_webhook.go:55-130 | every admitted Permission names one user in one way for good, never reads a missing User, and grants exactly when that user is known, to that user |
| ClusterReferences.SplitJoin | rabbitmqclient/cluster_reference.go:144-160 | splitting a joined list of comma-free names gives the list |
| ClusterReferences.AllowedNamespace | rabbitmqclient/cluster_reference.go:144-178 | the loop decides membership or "*", for clusters and for secrets alike |
| ClusterReferences.NamespaceList | rabbitmqclient/cluster_reference.go:144-178 | allowed within the own namespace; across namespaces exactly when the requester or "*" is listed, and never without the annotation |
| ClusterReferences.FindPort | rabbitmqclient/cluster_reference.go:235-265 | the number at the first index with that name, and zero if no index has it |
| ClusterReferences.ReportedErrors | rabbitmqclient/cluster_reference.go:39-142 | exactly when "no such cluster", "scaled to zero" and "not allowed" are reported |
| ClusterReferences.ConnectedBySecret | rabbitmqclient/cluster_reference.go:180-213 | through a connection secret: answered if and only if it is there, allows the requester and has an address that parses, with its own username, password and address |
| ClusterReferences.ConnectedByName | rabbitmqclient/cluster_reference.go:55-142 | by name: an answer has the credentials of the default user, and the address annotated or that of the first management port of the service, with TLS exactly when due |
| ClusterReferences.ConnectedByNameWhen | rabbitmqclient/cluster_reference.go:55-142 | by name: whenever none of the error conditions holds there is an answer |
| ClusterReferences.ClusterToRequests | internal/controller/topology_controller.go:277-315 | exactly the resources whose reference selects the cluster |
| ClusterReferences.SelectsExactly | internal/controller/topology_controller.go:277-315 | a cluster is selected exactly for the references whose resolution can depend on it |
| WakeUp.RunKeeps | internal/controller/topology_controller.go:277-315 | a watched resource that is asleep always has a cluster that the cache shows at zero or not allowing it |
| WakeUp.NoLostWakeUp | internal/controller/topology_controller.go:277-315 | in every run a resource of a topology kind, by name, that ended without error and without a connection is pending, being reconciled, or its cluster is still at zero or does not allow it |
| WakeUp.NothingForgotten | internal/controller/topology_controller.go:55-127 | in every run each listed resource is queued, being reconciled, waiting, or done; a failed one is queued again |
| WakeUp.StaysAsleep | internal/controller/topology_controller.go:254-315 | a sleeping resource whose reference the cluster watch does not cover is woken only by a change of itself or of something else its controller watches, or by a restart |
| WakeUp.SecretLosesWakeUp | internal/controller/topology_controller.go:182-191 | for every connection secret in another namespace a run leaves the resource asleep although it could connect |
| WakeUp.SuperStreamLosesWakeUp | internal/controller/super_stream_controller.go:208-216 | for every cluster in another namespace a run leaves a SuperStream asleep although the cluster allows it |
| WakeUp.WakeUpsKeptExactly | internal/controller/topology_controller.go:277-315 | no run loses the wake-up of a reference if and only if the cluster watch covers it or nothing can refuse it |
| BindingIdentity.UnescapeRecovers | internal/binding.go:48-57 | decoding recovers a routing key exactly when it does not contain "%7E" |
| BindingIdentity.PlainKeyShape | internal/binding.go:48-57 | "~" is the key of the empty routing key only, and other keys contain no "~" |
| BindingIdentity.KeyNamesOneRoutingKey | internal/binding.go:48-57 | a properties key names one routing key exactly when that has neither "~" nor "%7E" |
| BindingIdentity.AmbiguousTwin | internal/binding.go:48-57 | every other routing key shares its properties key with a different one |
| BindingIdentity.BindingReconciler.FindBindingInfo | internal/controller/binding_controller.go:78-105 | finds a listed binding with the routing key and arguments exactly when there is one |
| BindingIdentity.BindingReconciler.DeleteFunc | internal/controller/binding_controller.go:46-76 | in any broker and for any spec, success means the declared binding is gone; only bindings under its key go with it; exactly the declared one goes if and only if no other has that key |
| BindingIdentity.PlainDeletionExact | internal/controller/binding_controller.go:46-76 | a routing key with neither "~" nor "%7E", and arguments that share no hash, collide with no binding in any broker |
| BindingIdentity.AmbiguousDeletionHitsAnother | internal/controller/binding_controller.go:46-76 | for every other spec, with or without arguments, there is a broker with the declared binding and another one under the same key |
| BindingIdentity.AlwaysExactWhen | internal/binding.go:48-57 | deletion is exact in every broker if and only if the routing key has neither "~" nor "%7E" and no other arguments have the hash of its own |
| BindingIdentity.SameKeyMeans | internal/binding.go:39-57 | two bindings have one key if and only if their plain keys agree and so do their arguments or the hashes of them |
| QueueDeletion.QueueReconciler.DeleteFunc | internal/controller/queue_controller.go:44-78 | a guarded or retained queue is never removed, whatever its type; nothing else is touched; undisturbed, success is characterised for queues that are there and for queues already gone |

## Left out

- FinalizerProtocol.NoLeak: one resource name at a time; two resources that name the same broker object, and edits in the broker by others beyond removals, are not covered.
- Finalizers of others on a User, and its generated secret being collected with it: the latter is an event of others.
- UserReconciling.UserReconciler.DeclareCredentials: the number of retries on a conflict is a parameter, not the library's default.
- UserReconciling.UserReconciler.ReconcileLimits: only whether limits succeed is visible there; what happens to them is in the module Limits.
- SuperStreamReconciling.SuperStreamReconciler.Reconcile: reads are current and status writes succeed there; stale reads, conflicts, lost writes, crashes and concurrent edits are in SuperStreamRuns, on values.
- SuperStreamRuns.ReadyMeansComplete: children that were deleted by others after they were written are recreated by a later reconcile and not claimed to be there.
- BindingIdentity.BindingReconciler.FindBindingInfo: takes the broker's listing as given; decoding of arguments is not modelled.
- Children left by an earlier SuperStream of the same name, and deletion of a SuperStream.
- The finalizer that Permission deletion removes itself (internal/controller/permission_controller.go:100), and granting and revoking in the broker.
- Policy, OperatorPolicy, Federation, Shovel, SchemaReplication, TopicPermission and Vhost resources beyond their limits: the same shapes as those modelled.
- Manager wiring, flags and environment in cmd/main.go; generated code and test fakes.
- Vault, TLS and HTTP clients: credentials of a cluster are a result that may fail; which addresses parse is a parameter, and a path prefix is taken as already escaped.
- Password hashing and random strings: generated credentials are arbitrary strings.
- JSON arguments and INI configuration: taken as decoded.
- Reflection helpers, logging, events and message texts.
