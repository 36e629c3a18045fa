# Verified model of consul-k8s synchronisation

consul-k8s keeps Kubernetes and Consul in step. This project models the parts of it
that do the synchronising and proves what they promise, in Dafny.

* **Catalog sync to Consul.** `ServiceResource` turns Kubernetes services and endpoints
  into registrations (`Registrations`, `ResourceState`, `ServiceResource`). What they say is
  told from services, endpoints and events alone (`GeneratedInstances`, `GenerateMeaning`,
  `ResourceHistory`). `ConsulSyncer` brings the catalog in line with them (`SyncIndex`,
  `SyncerState`, `ConsulSyncer`).
  Proved: exactly when incremental generation equals generation from scratch; every run
  respects the first-sync gate, the watcher bookkeeping and other people's instances;
  exactly when repeated rounds have converged to the desired instances; and failing calls
  only delay that (`SyncerRuns`, `Convergence`, `SyncerFailures`, `EndToEnd`).
* **Catalog sync to Kubernetes.** `K8SSink` diffs Consul services against its caches and
  applies the difference (`SinkState`, `K8SSink`). Proved: no wake-up is lost in any
  interleaving; what a round leaves to do, failing calls included (`SinkFixpoint`); the two
  directions, run together, do not echo each other (`CatalogSource`, `NoEcho`).
* **Config entries.** `ReconcileEntry` keeps a Consul config entry in line with a custom
  resource, using a finalizer and an ownership tag (`ConfigEntries`, `IntentionMatch`,
  `Reconcile`, `ConfigEntryController`). What an entry says and how a reconcile ends is told
  from the spec and the calls alone (`EntryMeaning`, `ReconcileOutcome`). Proved over all
  runs with arbitrary failures of every call: owned entries never dangle and datacenters
  never touch each other's entries except by migration (`ReconcileRuns`); admitted intentions
  never share a Consul key (`IntentionAdmission`).
* **Helm values.** `MergeMaps` and `Diff` over trees of values (`ValueTrees`, `MergeMaps`,
  `Texts`, `Rendering`, `DiffLines`, `DiffShape`, `Diff`).

## How it is built

Code that updates fields in loops is a class whose methods have the same loops and
branches. Each method is proved to take a *step* of a state machine over values, and the
theorems are about every run of that machine. Remote calls cannot be made here: how each
call turns out is a parameter (`queryOk`, `registerOk`, `Calls`, ...), so a theorem about
all values of the parameters is a theorem about all failures. Loops over Go maps take
their keys in any order.

Library functions enter as parameters: the SHA-1 digest (only its length is known),
`strconv.ParseInt`, `strconv.FormatInt`, `strings.TrimSpace` of a name, `strings.ToLower`,
tag parsing, the JSON encoder of intention sources and the YAML form of a leaf. Node lookups
are a fixed function.

## Where the obvious claim is false

* Deleting endpoints drops the registrations of a service without generating them again,
  even if they come from external IPs or load balancer ingress. `ResourceState.ExactUnlessLost`
  says exactly when this has happened, `ResourceState.ExternalIPsLost` gives the runs.
* Deregistrations are keyed by service ID alone, so instances that share an ID across
  namespaces go one per round: `Convergence.Converges` says exactly how many rounds it takes
  and `Convergence.SharedIdTakesTwoRounds` gives a catalog that needs two.
* Two lists of the same intention sources can fail to match if a list mixes values of the
  Type field (`IntentionMatch.MixedTypesExample`); `IntentionMatch.MatchesExactlyWhen` is the
  exact condition.
* After a failed update the sink's edited cache hides the difference
  (`SinkFixpoint.HiddenUpdate`); `SinkFixpoint.NextDiffEmptyExactlyWhen` says exactly when
  failures stay hidden.
* The Consul names of two services in different namespaces can coincide even with the
  namespace suffix (`Registrations.NamesCollideExactlyWhen`,
  `Registrations.NamesCollideExample`).
* `MergeMaps` is not associative (`Merging.ShadowedMapReturns`,
  `Merging.AssociativeExactlyWhen`).
* A difference does not show that a map was empty if the other side has a different map
  there (`DiffSpec.ReadsBackExactlyWhen`, `DiffSpec.EmptyMapNotShown`).
* The comment on `Diff` says that identical maps give an empty string. The code writes
  them as unchanged lines; the model follows the code (`Diffs.IdenticalTrees`).

## Model

| member | source | states |
|---|---|---|
| ServiceIds.ServiceId | control-plane/catalog/to-consul/service_id.go:11-17 | an ID is 13 characters longer than the name and starts with it |
| ServiceIds.IdDeterminesName | control-plane/catalog/to-consul/service_id.go:11-17 | equal IDs have equal service names, whatever the digest does and wherever the name has dashes |
| ConsulSyncers.ConsulSyncer.Sync | control-plane/catalog/to-consul/syncer.go:104-136 | both indexes are rebuilt from the list, the first-sync gate opens, nothing else changes |
| ConsulSyncers.ConsulSyncer.AddAll | control-plane/catalog/to-consul/syncer.go:108-131 | the loop leaves the two indexes of the whole list, the last registration winning where an ID repeats |
| ConsulSyncers.ConsulSyncer.ReapPass | control-plane/catalog/to-consul/syncer.go:167-257 | a pass over the listing schedules exactly the tagged instances of services that are not valid and whose query succeeded |
| ConsulSyncers.ConsulSyncer.ReapOne | control-plane/catalog/to-consul/syncer.go:226-257 | one listed instance schedules all tagged instances of its service unless the service is valid |
| ConsulSyncers.ConsulSyncer.ScheduleReapServiceLocked | control-plane/catalog/to-consul/syncer.go:340-377 | the table gains the IDs of all tagged instances of the service; a failed query changes nothing |
| ConsulSyncers.ConsulSyncer.Poll | control-plane/catalog/to-consul/syncer.go:263-334 | a watcher pass schedules exactly the tagged instances of its service that are not registered; a failed query changes nothing |
| ConsulSyncers.ConsulSyncer.SyncFull | control-plane/catalog/to-consul/syncer.go:382-480 | watchers updated, deregistrations then registrations applied, table emptied, each call free to fail; without a client nothing happens; the state stays well formed |
| ConsulSyncers.ConsulSyncer.UpdateCatalog | control-plane/catalog/to-consul/syncer.go:427-479 | the catalog is the old one minus what was deregistered, overwritten by what was registered |
| ConsulSyncers.ConsulSyncer.UpdateWatchers | control-plane/catalog/to-consul/syncer.go:395-425 | live watchers become exactly the valid services, survivors keep their goroutine, cancelled ones are exactly those that vanished |
| ConsulSyncers.ConsulSyncer.DeregisterAll | control-plane/catalog/to-consul/syncer.go:427-441 | exactly the instances named by the table go, except where the call failed |
| ConsulSyncers.ConsulSyncer.RegisterAll | control-plane/catalog/to-consul/syncer.go:446-479 | every desired registration whose calls succeed is in the catalog as given, over whatever was there |
| ConsulSyncers.ConsulSyncer.constructor | control-plane/catalog/to-consul/syncer.go:482-506 | the initial state: empty indexes, table and watchers, gate closed |
| SyncIndex.IndexesAgree | control-plane/catalog/to-consul/syncer.go:104-131 | the indexes have the same namespaces, and the valid names of each are exactly the names of its indexed registrations, although repeated IDs keep one registration |
| SyncIndex.NamesOrderIndependent | control-plane/catalog/to-consul/resource.go:685-697 | the index of names does not depend on the order of the list, hence not on map iteration order |
| SyncIndex.OrderFreeExactlyWhen | control-plane/catalog/to-consul/resource.go:685-697 | the index of registrations is the same for every order of the list exactly when IDs are unique within a namespace |
| SyncIndex.DesiredFromList | control-plane/catalog/to-consul/syncer.go:104-131 | the desired instances are those of the list; where several share a key, one of them |
| SyncIndex.DesiredIsList | control-plane/catalog/to-consul/syncer.go:104-131 | with IDs unique per namespace every listed registration is the desired one of its key |
| SyncerRuns.InitialSyncGate | control-plane/catalog/to-consul/syncer.go:133-171 | in every run, until the first Sync: nothing scheduled, no watcher started, the catalog unchanged by every step of the syncer |
| SyncerRuns.WatcherBookkeeping | control-plane/catalog/to-consul/syncer.go:395-425 | in every run at most one uncancelled watcher per namespace and name, and right after a full sync with a client the running ones are exactly the valid services |
| SyncerRuns.CancelledExactlyWhen | control-plane/catalog/to-consul/syncer.go:395-425 | a goroutine is cancelled exactly by a full sync for which its service is no longer valid; new ones start only for services without one |
| SyncerRuns.ForeignInstancesUntouched | control-plane/catalog/to-consul/syncer.go:306-375 | in every run an untagged instance that no list claims is never removed or changed, however IDs are shared |
| SyncerRuns.SyncFullEffect | control-plane/catalog/to-consul/syncer.go:427-479 | a stale deregistration never loses a wanted instance; every other instance goes exactly when a deregistration of it went through; nothing stays scheduled |
| Convergence.AllHeard | control-plane/catalog/to-consul/syncer.go:226-257 | a reap pass without failures schedules every instance of every service that is not valid |
| Convergence.NothingFails | control-plane/catalog/to-consul/syncer.go:226-479 | when every call succeeds all services are heard and no registration or deregistration fails |
| Convergence.FairPassesCover | control-plane/catalog/to-consul/syncer.go:226-334 | a reap pass and a pass of every live watcher, in any order and number, schedule exactly the unwanted instances |
| Convergence.PassesSchedule | control-plane/catalog/to-consul/syncer.go:318-375 | any sequence of passes changes the table only, adding the union of their targets |
| Convergence.OneTargetPerId | control-plane/catalog/to-consul/syncer.go:361-368 | a table keyed by ID names one instance per ID |
| Convergence.FullSyncSettles | control-plane/catalog/to-consul/syncer.go:382-480 | a full sync without failures settles any state |
| Convergence.RoundTakes | control-plane/catalog/to-consul/syncer.go:226-479 | a round removes exactly one unwanted tagged instance for every ID that has one |
| Convergence.RoundProgress | control-plane/catalog/to-consul/syncer.go:226-479 | so their number drops by exactly the number of distinct IDs among them |
| Convergence.NothingUndesired | control-plane/catalog/to-consul/syncer.go:427-479 | no unwanted instance is left exactly when the tagged instances are the desired registrations |
| Convergence.Converges | control-plane/catalog/to-consul/syncer.go:226-479 | after n fair rounds the tagged instances are exactly the desired ones if and only if no ID was shared by more than n unwanted instances |
| Convergence.RoundExists | control-plane/catalog/to-consul/syncer.go:226-479 | from every settled state there is a fair round |
| Convergence.RoundsExist | control-plane/catalog/to-consul/syncer.go:226-479 | and any number of them |
| Convergence.SharedIdSettled | control-plane/catalog/to-consul/syncer.go:361-368 | a settled state with one ID in two namespaces |
| Convergence.SharedIdTakesTwoRounds | control-plane/catalog/to-consul/syncer.go:361-368 | from that state no round converges and any two do |
| SyncerFailures.SettledSafe | control-plane/catalog/to-consul/syncer.go:427-479 | right after a successful full sync every desired instance is registered and nothing desired is scheduled |
| SyncerFailures.StepSafe | control-plane/catalog/to-consul/syncer.go:226-480 | any step with any failures, passes of cancelled watchers included, keeps every desired instance registered; a full sync removes exactly what was scheduled and went through |
| SyncerFailures.FailuresDoNoHarm | control-plane/catalog/to-consul/syncer.go:226-480 | however many calls fail, nothing desired is lost and nothing unwanted appears |
| SyncerFailures.RecoversFromFailures | control-plane/catalog/to-consul/syncer.go:226-480 | after any failures a full sync and rounds converge, after no more rounds than would have been needed before |
| ServiceResources.ServiceResource.Upsert | control-plane/catalog/to-consul/resource.go:167-220 | the step of a service upsert: unexpected objects ignored, unwanted services forgotten, others regenerated and synced |
| ServiceResources.ServiceResource.Delete | control-plane/catalog/to-consul/resource.go:223-229 | the step of a service deletion |
| ServiceResources.ServiceResource.DoDelete | control-plane/catalog/to-consul/resource.go:234-245 | all three maps lose the key, and a sync happens exactly when registrations were dropped |
| ServiceResources.ServiceResource.EndpointsUpsert | control-plane/catalog/to-consul/resource.go:732-759 | the step of an endpoints upsert: ignored unless tracked, else regenerated and synced |
| ServiceResources.ServiceResource.EndpointsDelete | control-plane/catalog/to-consul/resource.go:761-778 | the step of an endpoints deletion: the entry is dropped, not regenerated |
| ServiceResources.ServiceResource.SyncAll | control-plane/catalog/to-consul/resource.go:685-697 | the list handed over is, as a multiset, everything kept |
| ServiceResources.ServiceResource.GenerateRegistrations | control-plane/catalog/to-consul/resource.go:323-599 | the entry becomes the generation function of service and endpoints, other entries stay |
| Registrations.MetaMeaning | control-plane/catalog/to-consul/resource.go:353-451 | a metadata key has the value of its annotation, else of the last port of that name, else source and namespace |
| Registrations.PortMetaValue | control-plane/catalog/to-consul/resource.go:433-437 | where port names repeat the last one is recorded |
| Registrations.NamesCollideExactlyWhen | control-plane/catalog/to-consul/resource.go:780-790 | services without a name annotation share a Consul name exactly when names (and with the suffix, namespaces) agree, or when a dashed name runs together with a namespace |
| Registrations.NamesCollideExample | control-plane/catalog/to-consul/resource.go:780-790 | service a in namespace b-c and service a-b in namespace c share a name |
| ServiceResources.ServiceResource.Port | control-plane/catalog/to-consul/resource.go:379-431 | the port by annotated number, annotated name, first node port or first port, in that order |
| ServiceResources.ServiceResource.Meta | control-plane/catalog/to-consul/resource.go:433-451 | port metadata over the base and annotation metadata over both, in any iteration order |
| ServiceResources.ServiceResource.RegisterExternalIPs | control-plane/catalog/to-consul/resource.go:464-475 | one instance per external IP, in order |
| ServiceResources.ServiceResource.RegisterIngress | control-plane/catalog/to-consul/resource.go:486-508 | the distinct non-empty ingress addresses in first-seen order |
| ServiceResources.ServiceResource.RegisterServiceInstance | control-plane/catalog/to-consul/resource.go:601-680 | the distinct non-empty endpoint addresses in first-seen order, nothing without endpoints |
| ServiceResources.ServiceResource.EndpointPort | control-plane/catalog/to-consul/resource.go:623-639 | the port of a subset: by name, first, or the service port |
| ServiceResources.ServiceResource.RegisterNodes | control-plane/catalog/to-consul/resource.go:515-592 | one instance per endpoint whose node is known and has a suitable address |
| ServiceResources.ServiceResource.FindNodeAddress | control-plane/catalog/to-consul/resource.go:541-590 | the first address of the wanted type, falling back to an internal one only for external-first |
| Registrations.FirstSeenMeaning | control-plane/catalog/to-consul/resource.go:649-655 | dropping duplicates keeps the order and, for every address, the first occurrence and no other |
| Registrations.CandidatesAreEndpoints | control-plane/catalog/to-consul/resource.go:619-678 | the candidates are the non-empty endpoint addresses, each with the port of its own subset and its own metadata |
| Registrations.WithoutEndpoints | control-plane/catalog/to-consul/resource.go:462-599 | registrations of endpoint services vanish with the endpoints, others do not depend on them |
| Registrations.GeneratedFromBase | control-plane/catalog/to-consul/resource.go:353-451 | every generated registration carries the tag, the Consul name and namespace of its service and an ID made from that name |
| GenerateMeaning.GeneratesExactly | control-plane/catalog/to-consul/resource.go:323-680 | a list is what the code generates if and only if it is what the service stands for: which addresses, in which order, and every field of each registration, told from service, endpoints and nodes alone |
| GenerateMeaning.ExternalIPsMeaning | control-plane/catalog/to-consul/resource.go:464-475 | one registration per external IP, with that address |
| GenerateMeaning.EndpointsMeaning | control-plane/catalog/to-consul/resource.go:601-680 | one registration for every non-empty endpoint address at its first place, with the port of that subset and that endpoint's metadata |
| GenerateMeaning.IngressMeaning | control-plane/catalog/to-consul/resource.go:486-508 | one registration for every non-empty ingress address at its first place |
| GenerateMeaning.NodesMeaning | control-plane/catalog/to-consul/resource.go:515-592 | one registration for every endpoint on a known node with a suitable address, at that address |
| GeneratedInstances.StandsDetermined | control-plane/catalog/to-consul/resource.go:323-680 | the description determines the registrations |
| GeneratedInstances.ChooseMeaning | control-plane/catalog/to-consul/resource.go:379-431 | the service port: the number asked for, the first port of the name asked for, the first node port or the first port |
| GeneratedInstances.SubsetPortMeaning | control-plane/catalog/to-consul/resource.go:623-639 | the port of a subset: of the name asked for, the first one, or the service port |
| GeneratedInstances.IdsDifferExactlyWhen | control-plane/catalog/to-consul/service_id.go:11-17 | two addresses of a service have different IDs exactly when the digests differ within twelve characters |
| ResourceState.FlatMembers | control-plane/catalog/to-consul/resource.go:685-697 | the flattening holds exactly the registrations of the entries |
| ResourceState.StepKeepsInv | control-plane/catalog/to-consul/resource.go:167-245 | every event keeps the invariant of the three maps and the last list |
| ResourceState.ReachableInv | control-plane/catalog/to-consul/resource.go:182-245 | in every reachable state the last list is the flattening of the kept registrations, keys of registrations and endpoints are known services that should be synced, and entries are exact or missing for a service that does not depend on endpoints |
| ResourceState.DeleteEndpointsExactIff | control-plane/catalog/to-consul/resource.go:761-778 | an endpoints deletion leaves an exact entry exact if and only if it did not drop registrations that do not come from endpoints |
| ResourceState.ExactUnlessLost | control-plane/catalog/to-consul/resource.go:167-245 | in every run the kept entry equals generation from scratch if and only if no endpoints deletion dropped registrations that do not come from endpoints without a later restore; then it is empty |
| ResourceState.ExternalIPsLost | control-plane/catalog/to-consul/resource.go:761-778 | a run of two events after which any synced service with external IPs and tracked endpoints is no longer registered |
| ResourceState.ClusterIPLost | control-plane/catalog/to-consul/resource.go:761-778 | the same for a concrete ClusterIP service |
| ResourceHistory.SyncedExactlyWhen | control-plane/catalog/to-consul/resource.go:257-294 | a service is synced exactly when none of the five reasons to leave it out applies |
| ResourceHistory.KeptFromHistory | control-plane/catalog/to-consul/resource.go:167-245 | in every run the kept service and endpoints of a key are those its history of events tells |
| ResourceHistory.NeverKept | control-plane/catalog/to-consul/resource.go:257-294 | in every run no map holds a service in a denied or not allowed namespace, a ClusterIP service when these are not synced, one whose annotation says no, or one without a yes when that is required |
| ResourceHistory.AlwaysKept | control-plane/catalog/to-consul/resource.go:193-195 | in every run a service last upserted for which no such reason applies is kept as it was |
| ResourceHistory.RegisteredFromHistory | control-plane/catalog/to-consul/resource.go:167-245 | in every run the registrations of a key are those its service and endpoints stand for, from the events alone, unless lost |
| EndToEnd.ListsFit | control-plane/catalog/to-consul/resource.go:685-697 | every list handed over is tagged, matches the namespace mode and has IDs made from names, which is what the syncer relies on |
| EndToEnd.SettlesOnList | control-plane/catalog/to-consul/syncer.go:104-480 | from any well-formed state, handing the list over and one full sync without failures settle the syncer on it |
| EndToEnd.ListedExactly | control-plane/catalog/to-consul/resource.go:167-245 | in every run the list handed over last holds exactly the registrations generated from services and endpoints, lost ones left out |
| EndToEnd.ConvergedIsList | control-plane/catalog/to-consul/syncer.go:104-479 | a converged catalog holds, under the tag, precisely the instances of the list; where several share a key, one of them |
| EndToEnd.ConvergedExactlyWhenMirrors | control-plane/catalog/to-consul/syncer.go:104-479 | for a syncer settled on the list, converging is mirroring the generated instances |
| EndToEnd.PipelineConverges | control-plane/catalog/to-consul/syncer.go:104-479 | for any informer history and any state of the syncer: after list, full sync and n rounds the tagged instances are precisely the generated ones if and only if no ID was shared by more than n unwanted instances |
| EndToEnd.PipelineReaches | control-plane/catalog/to-consul/syncer.go:226-479 | rounds that lead there exist |
| IntentionMatch.MatchesExactlyWhen | control-plane/api/v1alpha1/serviceintentions_types.go:231-253 | against a list of one Type, as a resource has, sort-then-compare accepts exactly when the sources are equal as multisets on the compared fields and the Types of the other list do not reverse sources that differ only after the Type |
| IntentionMatch.UniformInOrder | control-plane/api/v1alpha1/serviceintentions_types.go:494-513 | one Type never reverses anything |
| IntentionMatch.MatchingListsAgree | control-plane/api/v1alpha1/serviceintentions_types.go:231-253 | accepted lists always hold the same sources |
| IntentionMatch.MixedTypesMismatch | control-plane/api/v1alpha1/serviceintentions_types.go:494-513 | lists with mixed Types can hold the same sources and be rejected: the sort key keeps the Type, the comparison ignores it |
| IntentionMatch.MixedTypesExample | control-plane/api/v1alpha1/serviceintentions_types.go:494-513 | two concrete sources of one name for which this happens |
| IntentionMatch.PairSorted | control-plane/api/v1alpha1/serviceintentions_types.go:494-513 | sources in sort order are in the order of their compared fields unless their Types reverse them |
| ConfigEntries.MatchEquivalence | control-plane/api/v1alpha1/shared_types.go:211-225 | matching is reflexive, symmetric and transitive, the nil and empty transparent proxy included |
| ConfigEntries.StoredMatchesExactlyWhen | control-plane/api/v1alpha1/serviceintentions_types.go:231-253 | a matching entry that Consul stores anew in its own way matches again exactly when its Types are in order |
| ConfigEntries.WriteMatches | control-plane/api/v1alpha1/serviceintentions_types.go:217-253 | what a resource writes is owned by its datacenter and matches the resource exactly when Consul stores it with the Types in order |
| EntryMeaning.MatchesExactlyWhenSays | control-plane/api/v1alpha1/serviceintentions_types.go:231-253 | the match accepts exactly the entries that say what the spec says, with Types in order |
| EntryMeaning.WrittenSays | control-plane/api/v1alpha1/serviceintentions_types.go:217-225 | what is stored has the content of the spec, the namespace of the destination, and metadata naming Kubernetes and the datacenter |
| EntryMeaning.KeyExactlyWhen | control-plane/controller/configentry_controller.go:301-322 | the kind, name and Consul namespace of a resource's entry, and no other key |
| Reconciling.Removed | control-plane/api/v1alpha1/serviceintentions_types.go:155-163 | every occurrence of the finalizer goes, every other finalizer keeps its multiplicity |
| Reconciling.RemovedSnoc | control-plane/api/v1alpha1/serviceintentions_types.go:155-163 | and the others keep their order: the list is treated element by element |
| ConfigEntryControllers.ConfigEntryController.ReconcileEntry | control-plane/controller/configentry_controller.go:95-268 | stores and result are those of the reconcile function, for every combination of failing calls |
| ConfigEntryControllers.ConfigEntryController.FinalizeEntry | control-plane/controller/configentry_controller.go:130-166 | the deletion path: delete only what is ours, then drop the finalizer |
| ConfigEntryControllers.ConfigEntryController.SyncLive | control-plane/controller/configentry_controller.go:169-267 | the live path: create, refuse, migrate, update or confirm |
| ReconcileRuns.SyncEntryKube | control-plane/controller/configentry_controller.go:169-362 | whatever is recorded while an entry is synced, only the status of that resource changes |
| Common.ContainsString | control-plane/controller/configentry_controller.go:386-393 | true exactly for members |
| Reconciling.SuccessMeansSynced | control-plane/controller/configentry_controller.go:169-268 | a successful reconcile of a live resource leaves an entry owned by this datacenter, the finalizer and status True, and the entry matches exactly when its Types are in order |
| Reconciling.SucceedsExactlyWhen | control-plane/controller/configentry_controller.go:169-268 | if no call fails it succeeds exactly when no foreign entry stands in the way, or migration is asked for and the entry matches |
| EntryMeaning.SuccessSays | control-plane/controller/configentry_controller.go:169-268 | after a successful reconcile Consul holds, under the resource's key, an entry that says what the spec says and names this datacenter |
| ReconcileOutcome.LiveOutcome | control-plane/controller/configentry_controller.go:95-268 | for every combination of failing calls: what is written, which finalizers and status a live resource ends up with, and whether it succeeds |
| ReconcileOutcome.DeletingOutcome | control-plane/controller/configentry_controller.go:129-166 | the same for a resource being deleted |
| Reconciling.SyncedIsFixpoint | control-plane/controller/configentry_controller.go:169-268 | once synced, an entry that Consul re-stores in its own way is still matched exactly when its Types are in order, as those of the synced entry are; then a further reconcile writes nothing to Consul whatever fails, and without failures changes nothing at all |
| Reconciling.DeletionCompletes | control-plane/controller/configentry_controller.go:129-166 | without failures our entry goes, entries of others stay, the finalizer is dropped |
| Reconciling.ConsulShape | control-plane/controller/configentry_controller.go:95-268 | all a reconcile can do to Consul: nothing, write its own key where allowed, or delete its own key if owned |
| Reconciling.OthersEntriesKept | control-plane/controller/configentry_controller.go:142-262 | entries of other keys and other owners survive unchanged, except a migration by a resource that matches, which keeps the content and transfers the tag |
| ReconcileRuns.FinalizerGuards | control-plane/controller/configentry_controller.go:119-167 | while Consul holds our entry the resource keeps the finalizer |
| ReconcileRuns.StepKeepsNoDangling | control-plane/controller/configentry_controller.go:119-200 | every step, failing or not, keeps owned entries held |
| ReconcileRuns.NeverDangling | control-plane/controller/configentry_controller.go:119-200 | in every run of creates, edits, deletions and reconciles with any failures, from any start without dangling entries, an owned entry has a resource with its key and the finalizer |
| ReconcileRuns.OwnershipKept | control-plane/controller/configentry_controller.go:142-262 | over any interleaving of reconciles of other datacenters an entry stays as it is until one takes it over by migration |
| IntentionAdmission.Handle | control-plane/api/v1alpha1/serviceintentions_webhook.go:34-95 | admitted exactly when valid and, on create, colliding with nothing stored, on update, keeping its destination; the patch is the defaulted object |
| IntentionAdmission.DefaultedMeaning | control-plane/api/v1alpha1/serviceintentions_types.go:286-298 | a given destination namespace stays; a missing one becomes the mirrored or configured one; nothing changes without namespaces |
| IntentionAdmission.Validate | control-plane/api/v1alpha1/serviceintentions_types.go:255-283 | accepted exactly when there is a source, namespaces and partitions are enabled where used, no source has both peer and partition, and every source has a valid action or valid permissions but not both |
| IntentionAdmission.ValidateHttp | control-plane/api/v1alpha1/serviceintentions_types.go:381-427 | at most one path criterion, paths beginning with a slash, known methods without repetition, at most one criterion per header |
| IntentionAdmission.ValidateMethods | control-plane/api/v1alpha1/serviceintentions_types.go:404-424 | every method known and none listed twice |
| IntentionAdmission.ValidateHeaders | control-plane/api/v1alpha1/serviceintentions_types.go:429-443 | no header has two criteria |
| IntentionAdmission.ValidatePermissions | control-plane/api/v1alpha1/serviceintentions_types.go:368-379 | every permission has a valid action and valid HTTP criteria |
| IntentionAdmission.ValidateAction | control-plane/api/v1alpha1/serviceintentions_types.go:476-482 | only allow and deny are actions |
| IntentionAdmission.CountDecides | control-plane/api/v1alpha1/serviceintentions_types.go:432-437 | counting criteria decides whether two are set |
| IntentionAdmission.DifferentKeys | control-plane/controller/configentry_controller.go:301-322 | stored resources that do not conflict have different Consul keys |
| IntentionAdmission.ConflictExactlyWhen | control-plane/api/v1alpha1/serviceintentions_webhook.go:47-69 | two resources conflict exactly when their Consul keys are equal if namespaces are mirrored or absent, and when their names are if all entries go to one namespace |
| IntentionAdmission.NeverCollide | control-plane/api/v1alpha1/serviceintentions_webhook.go:42-89 | after any sequence of requests distinct stored resources have distinct Consul keys, in both namespace modes |
| IntentionAdmission.KeysImmutable | control-plane/api/v1alpha1/serviceintentions_webhook.go:72-89 | no step changes the Consul key of a resource that stays |
| IntentionAdmission.ControllerKeysImmutable | control-plane/controller/configentry_controller.go:301-322 | no admitted request changes the Consul key of a resource as the controller computes it |
| K8SSinks.K8SSink.SetServices | control-plane/catalog/to-k8s/sink.go:86-103 | the source services become the lower-cased ones and a trigger is sent |
| K8SSinks.K8SSink.Upsert | control-plane/catalog/to-k8s/sink.go:125-161 | the caches learn the service, and a trigger is sent for a labelled one only |
| K8SSinks.K8SSink.Delete | control-plane/catalog/to-k8s/sink.go:164-190 | the caches forget the name; a trigger is sent for an unknown key or a source service |
| K8SSinks.K8SSink.TriggerSync | control-plane/catalog/to-k8s/sink.go:325-335 | a message is buffered exactly when the channel exists or one was already there |
| K8SSinks.K8SSink.Start | control-plane/catalog/to-k8s/sink.go:193-206 | the channel is made with its initial message |
| K8SSinks.K8SSink.Evaluate | control-plane/catalog/to-k8s/sink.go:223-225 | the locked section returns the three lists of the diff and edits the cache in place |
| K8SSinks.K8SSink.CrudList | control-plane/catalog/to-k8s/sink.go:252-308 | each list holds every name that needs it, once, with the right service; the cache is retargeted |
| SinkFixpoint.ListsMeaning | control-plane/catalog/to-k8s/sink.go:252-308 | created services are new aliases of unknown source services, updated ones keep everything but their spec and become aliases, deleted ones are labelled and no source services; each listed once |
| SinkState.TriggersExactlyWhen | control-plane/catalog/to-k8s/sink.go:86-190 | which events send a message, exactly |
| SinkState.EvaluateShrinks | control-plane/catalog/to-k8s/sink.go:261-272 | editing the cached specs in place adds no work |
| SinkState.StepKeepsNames | control-plane/catalog/to-k8s/sink.go:125-190 | cached services stay filed under their own names |
| SinkState.StepKeepsAwake | control-plane/catalog/to-k8s/sink.go:86-225 | every step keeps the wake-up invariant |
| SinkState.NoLostWakeup | control-plane/catalog/to-k8s/sink.go:193-225 | in every interleaving, if the diff has an item it did not have when last evaluated, a trigger is buffered, taken and not yet acted on, or still to be sent |
| SinkFixpoint.ListsApply | control-plane/catalog/to-k8s/sink.go:228-247 | working through deletions, updates and creations does what the diff says, name by name |
| SinkFixpoint.AppliedMeaning | control-plane/catalog/to-k8s/sink.go:252-308 | native services untouched; labelled services exactly the unshadowed source services with their external names; created and updated ones of type ExternalName and nothing else; the three lists disjoint |
| SinkFixpoint.InterleavedAt | control-plane/catalog/to-k8s/sink.go:125-190 | what the caches say of a name after calls and notifications in any order and repetition |
| SinkFixpoint.RoundOutcome | control-plane/catalog/to-k8s/sink.go:193-308 | what a round leaves to do when any calls fail: exactly the failed changes are found again, except failed updates nobody hears of, and the caches are right everywhere else |
| SinkFixpoint.NextDiffEmptyExactlyWhen | control-plane/catalog/to-k8s/sink.go:223-308 | the next diff is empty exactly when every failed call was an update nobody heard of |
| SinkFixpoint.HiddenUpdate | control-plane/catalog/to-k8s/sink.go:261-272 | a failed update that leaves nothing to do although the cluster is wrong |
| SinkFixpoint.InterleavedFixpoint | control-plane/catalog/to-k8s/sink.go:223-308 | when no call fails the caches describe the new cluster and the next diff is empty |
| CatalogSource.CollectServices | control-plane/catalog/to-k8s/source.go:65-83 | the services handed over are exactly those without the tag, prefixed, each with its DNS name |
| CatalogSource.SourcedExactlyWhen | control-plane/catalog/to-k8s/sink.go:86-103 | a name is among the source services exactly when some listed name without the tag has its lower-case form |
| CatalogSource.SourcedTo | control-plane/catalog/to-k8s/sink.go:86-103 | a listed service without the tag leads to the lower-case DNS name of the service, unless names collide when lower-cased |
| CatalogSource.RegisteredNotSourced | control-plane/catalog/to-k8s/source.go:67-83 | a service with any tagged instance never gets among the source services, listed names being distinct when lower-cased |
| CatalogSource.GeneratedNotSourced | control-plane/catalog/to-consul/resource.go:353-360 | no registration generated from Kubernetes comes back as a source service |
| CatalogSource.NeverSourced | control-plane/catalog/to-k8s/sink.go:86-103 | in every run of the sink a name tagged in every listing is never among its source services |
| CatalogSource.SinkOutputMarked | control-plane/catalog/to-k8s/sink.go:283-297 | in every run everything the sink creates or updates is marked as not to be synced |
| CatalogSource.KeptNotMarked | control-plane/catalog/to-consul/resource.go:277-293 | in every run, whatever the history, no kept service is marked and only kept services have registrations |
| CatalogSource.MarkedNeverRegistered | control-plane/catalog/to-consul/resource.go:182-191 | in every run a service last seen marked is in none of the three maps, even if it was a native one before |
| NoEcho.StepKeepsInv | control-plane/catalog/to-consul/resource.go:167-245 | every step of either direction keeps the invariant of the whole system |
| NoEcho.NeverEchoes | control-plane/catalog/to-k8s/source.go:65-86 | in every run of both directions together no service of the sink is registered, everything to be registered is tagged, and nothing tagged in the last listing is created or updated in Kubernetes |
| Merging.MergeMaps | cli/common/utils.go:30-47 | in any iteration order the result is the pure deep merge |
| Merging.MergeMeaning | cli/common/utils.go:28-47 | the value of a merge at every path, from the values of the two trees at that path |
| Merging.EmptyIdentity | cli/common/utils.go:30-47 | the empty map is an identity on both sides |
| Merging.Idempotent | cli/common/utils.go:30-47 | merging a tree with itself changes nothing |
| Merging.CoveredMeaning | cli/common/utils.go:30-47 | a merge is absorbed exactly when every key is overridden, level by level |
| Merging.AssociativeExactlyWhen | cli/common/utils.go:30-47 | grouping does not matter exactly when no leaf of the middle tree hides a map that the last tree does not fully override |
| Merging.CompatibleAssociates | cli/common/utils.go:30-47 | in particular where no path is a map in one tree and a leaf in another |
| Merging.ShadowedMapReturns | cli/common/utils.go:30-47 | a non-empty map shadowed by a leaf comes back under the other grouping |
| Diffs.Diff | cli/common/diff.go:13-19 | the text is the lines of the difference; the special case of two empty maps agrees with the general one |
| Diffs.DiffRecursively | cli/common/diff.go:25-108 | the loop writes the lines of every key in order, at its depth |
| Diffs.WriteKey | cli/common/diff.go:31-104 | the lines of one key: unchanged, nested, changed, removed or added |
| Diffs.CollectKeys | cli/common/diff.go:111-124 | the keys of either map, sorted and without repetition, in any iteration order |
| Diffs.WriteWithPrepend | cli/common/diff.go:127-137 | the text is trimmed and split, and every line is written with its mark and indentation |
| Texts.TextLinesOfTidy | cli/common/diff.go:128-128 | trimming and splitting gives back the lines of a text that begins and ends with a visible character |
| Diffs.IsMaxDepth | cli/common/diff.go:140-148 | true exactly when no value is a map |
| DiffSpec.MarkedExactlyWhenDifferent | cli/common/diff.go:25-108 | for all trees a marked line exists exactly when they differ |
| DiffSpec.ReadsBackExactlyWhen | cli/common/diff.go:25-108 | dropping the lines of the other side and all marks gives the rendering of this side exactly when no empty map of it meets a different map; the number of lines always agrees |
| DiffShape.ShowsExactly | cli/common/diff.go:25-108 | the lines are exactly one block per key of either tree, in key order, and in each block what is removed before what is added |
| DiffShape.BlockExactly | cli/common/diff.go:31-104 | the block of a key: its mark, removed before added, or the nested difference one level deeper |
| DiffSpec.EmptyMapNotShown | cli/common/diff.go:55-67 | filling an empty map: the old side cannot be read back, the new one can |
| Texts.LinesOfJoined | cli/common/diff.go:127-137 | the text determines its lines |
| Diffs.DiffTextFaithful | cli/common/diff.go:13-148 | both facts read off the text itself: the marks for all trees, the two sides for trees with keys written as they are |
| Diffs.IdenticalTrees | cli/common/diff.go:11-19 | identical trees give an empty text exactly when they are empty, never a mark, and otherwise the unchanged rendering |

## Left out

- Timing, backoff, blocking-query indexes, coalescing periods and rate limits: steps happen in any order instead.
- Instances on other Consul nodes: the catalog is that of the one node services are registered on.
- Creating Consul namespaces before registering: folded into the outcome of the registration.
- The two-level watcher map: flattened to one map keyed by namespace and name.
- Stale reads of the catalog: a query sees the catalog of its step.
- ConsulSyncers.ConsulSyncer.Sync: requires registrations to name a namespace exactly when Consul namespaces are enabled, because Consul without namespaces has none; EndToEnd.ListsFit shows that every list handed over does.
- Convergence.Converges: rounds are without failing calls and with the desired registrations fixed; SyncerFailures states what failures do in between.
- EndToEnd.PipelineConverges: where registrations share a namespace and ID, which of them is in Consul is left open, because it depends on the order of the list; services with the same Consul name and address share an ID, and so may others whose truncated digests collide.
- EndToEnd.SettlesOnList: requires every service to be mapped into a named Consul namespace if Consul namespaces are enabled, because the default namespace has a name.
- Aliasing between the sink's cache and the informer's: services are values, so the in-place edit is an update of the cache.
- CatalogSource.RegisteredNotSourced: requires listed names to stay distinct when lower-cased, because Consul ignores the case of names; CatalogSource.SourcedExactlyWhen is the exact statement without it.
- CatalogSource.SourcedTo: requires listed names to stay distinct when lower-cased, because of two colliding names either may win.
- NoEcho.NeverEchoes: requires that users do not edit services labelled as the sink's, and that listed names stay distinct when lower-cased.
- K8SSinks.K8SSink.Start: models the first call of Run only, because a second one would wait on a channel that never exists.
- IntentionMatch.MatchesExactlyWhen: requires JSON text up to a field boundary, and that of the Type field, to be prefix-free and to determine the fields, because the encoder itself is not modelled.
- ReconcileRuns.NeverDangling: requires that nobody else strips the finalizer, changes a resource's key (for intentions IntentionAdmission.ControllerKeysImmutable shows it) or stamps a datacenter's tag.
- Errors whose text contains 404: a failed read is a failed read, and a missing entry is a missing entry.
- Admin partitions of config entries, and the field-by-field conversion of the other kinds: their content is one opaque field.
- Null elements in the lists of an intention: the code would not survive them.
- The generic config entry webhooks.
- YAML syntax: keys are written unquoted, nested keys in the order of the sorted keys, the text of a leaf begins and ends with a visible character, and marshalling does not fail.
- DiffSpec.ReadsBackExactlyWhen: requires keys without line breaks or leading spaces, because YAML would quote them.
- The CLI commands, Helm actions, the CNI plugin, the injection webhook and the container builders.
