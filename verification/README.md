# Verified model of the AppNet Gateway controller

The controller watches Gateway API objects in a member cluster and keeps, in an infra cluster, one
agentgateway data plane per Gateway and one Istiod per tenant. This project models the parts of it
whose behaviour is hard to see from the code: the coalescing work processor, the status writer under
optimistic concurrency, route acceptance, the reconcile state machine, certificate validation and
mounting, token rotation, name and port rendering, and create-or-update with ownership. Every result
is a statement over all inputs, all runs or all reachable states.

Check it with `dafny verify dfyconfig.toml` (Dafny 4.11).

## How the model is laid out

| module | file | what it holds |
|---|---|---|
| `GatewayApi` | `GatewayApi.dfy` | the API records that decisions depend on |
| `Processor` | `Processor.dfy` | the work processor as a transition system and as an object |
| `Conditions` | `Conditions.dfy` | the condition upsert, on values and on a Go slice |
| `GatewayStatuses`, `GatewayStore` | `GatewayStatus.dfy`, `GatewayStore.dfy` | the three Gateway status transforms, then any number of concurrent writers of them |
| `OptimisticStore` | `OptimisticStore.dfy` | versions, stale reads, conflicts and bounded retries, for any transform |
| `Hostnames`, `ReferenceGrants`, `RouteAcceptance` | same names | the decisions about one route |
| `RouteParents`, `RouteStatuses`, `RouteStore` | `RouteParents.dfy`, `RouteStatus.dfy`, `RouteStore.dfy` | the shared parents list: the merge, what is computed for it, and concurrent runs |
| `ReconcileRuns`, `ReconcileOrder`, `StatusRefinement` | `Reconcile.dfy`, `ReconcileOrder.dfy`, `StatusRefinement.dfy` | whole runs of `Reconcile` with edits, deletion and re-creation; the order of work inside a call; status steps as commits of the store |
| `Names`, `CertSet`, `TlsAssets`, `ServicePorts` | same names | rendered names, the Istiod mounts, TLS validation, Service ports |
| `Tokens`, `Ownership` | same names | token rotation; apply and cleanup over every interleaving |

Code that mutates takes an imperative form: the processor, the Service, the infra cluster and the
token store are classes, condition slices are arrays with a length below their capacity, and loops
are loops, each proved against a specification function that the lemmas are about. Protocols are
transition systems with one step per critical section or client call; a run is a sequence of states
linked by steps, and the theorems quantify over runs of every length.

## Assumptions

- A client `Get` overwrites its receiver; a read of the member cluster or of infra objects goes through
  a cache and may return any earlier version.
- An update commits only if it was computed from the newest version. `RetryOnConflict` with
  `retry.DefaultRetry` makes at most five attempts.
- In `ReconcileRuns` a status write is one step on the newest version; `RunIsReplay` ties those steps to the
  commits of the optimistic store, whose read, transform, compare and update loop `NoLostUpdate` is about. An
  attempt that found nothing to change or gave up is the step without a write.
- SHA-256 is a parameter that returns 32 bytes, Unicode lower-casing is a parameter, and label-selector
  compilation and matching are parameters, so every result holds whatever they compute. RFC 3339
  formatting is a parameter too, assumed to parse back what it formats.
- Times are whole seconds. A nil and an empty slice are one value; Go's `DeepEqual` tells them apart, so
  "writes nothing" is about sequence values.
- The API server keeps a requested node port, assigns a non-zero one where none was requested, and holds
  no Secret with an empty name.

## What turned out different from what one might expect

- `InterleavedCleanupRemovesAnothers`: cleanup reads, checks and then deletes without a version
  precondition, so with two Gateways whose infra names collide it can delete an object that the other
  one has just taken over. `CleanupIsSafeIff` says exactly when: when the guard that the cleanup evaluated
  on the object it read no longer holds of the object it deletes. Updates are never affected.
- `OthersEntryKeptIff`: the merge reads an absent parentRef namespace as the Gateway's own, the matcher
  as the route's. A merge therefore keeps another Gateway's entry exactly when that entry names its
  namespace or the names differ. Entries that the controller writes always name it.
- `EditDuringCallIsClaimed`: `MarkProgrammed` stamps the generation it re-reads, so an edit made after
  validation is claimed as programmed although its certificates were never checked. `ClaimIsCheckedIff`
  says exactly when a claim is a checked one.
- `OrderFreeIff`: a lookup error ends the listener loop, so the order of listeners matters exactly when
  one listener accepts the route and another cannot answer.
- `VolumeNamesCollide`, `GatewayNamesCollide`: sanitising merges the volume names of Secrets `a.b` and
  `a-b`, and joining merges the infra names of Gateways `a-b/c` and `a/b-c`. `VolumeNamesEqualIff`,
  `GatewayNamesEqualIff` and `TokenNamesEqualIff` say exactly which names merge, as long as they fit.
- `SwallowedCreateLags`: `Apply` treats AlreadyExists as success (controller/internal/provisioner/apply.go:85-88).
  A reconcile that follows another before the cache has caught up misses the token Secret, is granted a new
  token, has its Create answered by AlreadyExists, and still stamps the new expiration on the pods while the
  Secret keeps the old token; a swallowed Create of the Deployment leaves the pods behind a rotation. Both are
  reported as success. `PodsLagIff` and `PodsLagOverHistory` say exactly when the two differ.
- `StaleReadHidesExpiry`, `SwallowedCreateHidesExpiry`: with reads that may be arbitrarily stale a success says
  nothing about the stored token; `ExpiryFollowsLastRotation` says what decides it, and `TokenStaysFresh`
  tolerates reads less than eight hours behind with the twelve-hour tokens that the code asks for.
- Some results need less than one would think: `SuccessIsFixpoint` holds with repeated listener names,
  `MergesCommute` without explicit namespaces, and `TokenStaysFresh`, with current reads, for any grant longer
  than the four-hour refresh window.
- The comments on `RefreshIstiod` and on `TLSCertNames` speak of listener certificates only; the code
  also mounts the backend client certificate and the CA names of BackendTLSPolicies, and the model
  follows the code.

## Model

| member | source | states |
|---|---|---|
| `Processor.MutualExclusion` | controller/internal/membercluster/handler.go:51-82 | in every reachable state a key has an entry iff it has a live worker, entries are running, workers of one key are one, each holds its key's own entry, and never are two reconcile calls of a key open |
| `Processor.NoLostWakeup` | controller/internal/membercluster/handler.go:51-99 | whenever a key has no entry, every earlier enqueue of it was followed by a reconcile call that began later and returned, cancelled context or not |
| `Processor.RoundsAreFull` | controller/internal/membercluster/handler.go:84-99 | in every run a worker about to make an attempt has failed exactly the attempts before it in its round, and one about to lock has had a success, a cancelled context or three failures |
| `Processor.WakeupWithinFourSteps` | controller/internal/membercluster/handler.go:69-99 | after any enqueue a new reconcile call of the key begins within four steps of its worker |
| `Processor.WorkerCanStep` | controller/internal/membercluster/handler.go:69-99 | in every reachable state the worker of a present key has a possible step: the protocol does not deadlock |
| `Processor.QuietKeyDrains` | controller/internal/membercluster/handler.go:69-99 | without new enqueues a key's worker makes at most 21 steps, and after them the entry is gone and every enqueue was served |
| `Processor.StepsRefineCriticalSections` | controller/internal/membercluster/handler.go:51-82 | each step of the transition system changes the key map exactly as the object's critical sections do |
| `Processor.GatewayProcessor.Enqueue` | controller/internal/membercluster/handler.go:51-67 | creates, starts or dirties exactly the key's state, keeps states unshared, and hands out a state to run iff none was running |
| `Processor.GatewayProcessor.Release` | controller/internal/membercluster/handler.go:73-80 | a clean state's entry is removed and the worker stops, a dirty one is cleaned and kept; no other entry changes |
| `Processor.ReconcileWithRetries` | controller/internal/membercluster/handler.go:84-99 | at least one and at most three calls; all but the last failed and were not cancelled; it stops early only on success or cancellation |
| `OptimisticStore.NoLostUpdate` | controller/internal/status/writer.go:53-128 | with any number of writers, stale reads, failures and retries that read anew, the stored object is the one-at-a-time replay of all commits; a writer commits at most once; success means its own commit or nothing to change, and errors and exhausted retries are told apart |
| `OptimisticStore.ConflictsAreRetried` | controller/internal/status/writer.go:47-57 | in every run a writer's conflicts are exactly its attempts that came too late; it has given up iff there were five, and erred iff a read, a write or the transform failed; otherwise it is still fetching or deciding, or has succeeded |
| `OptimisticStore.FreshAttemptSettles` | controller/internal/status/writer.go:47-57 | a writer that fetches the newest version and decides before another commit commits its transform of that version, or finds nothing to change, or fails with the transform |
| `Conditions.UpsertCondition` | controller/internal/status/writer.go:696-709 | the in-place loop computes the upsert of the old contents, writes only the matched or appended slot, and leaves the array alone when it had to grow |
| `Conditions.LookupOfUpsert` | controller/internal/status/writer.go:687-709 | lookup after upsert: other types as before; the upserted type shows the new status, reason, message and generation, and keeps its transition time iff status, reason and message were the same |
| `Conditions.UpsertFrame` | controller/internal/status/writer.go:696-709 | conditions of other types stay, in order, and types stay unique |
| `Conditions.UpsertNoop` | controller/internal/status/writer.go:696-709 | an upsert changes nothing iff status, reason, message and generation already agree |
| `Conditions.UpsertAllSettles` | controller/internal/status/writer.go:623-627 | after upserting a list of distinct types, every one of them is settled for any later time |
| `GatewayStatuses.MarkAccepted` | controller/internal/status/writer.go:58-127 | the retry body with its map and listener loop computes the accepted status and writes iff it differs |
| `GatewayStatuses.AcceptedStatusFacts` | controller/internal/status/writer.go:58-123 | by lookup, for the Gateway and each listener in spec order: Accepted=True with reason Accepted and ResolvedRefs=True at the read generation; Programmed as it was if True at this generation, else Unknown with reason Pending; the route kinds of the protocol; types unique, nothing stale, and all other types and fields as they were |
| `GatewayStatuses.MarkProgrammed` | controller/internal/status/writer.go:141-170 | the retry body computes the programmed status and writes iff it differs |
| `GatewayStatuses.ProgrammedStatusFacts` | controller/internal/status/writer.go:141-166 | by lookup: Programmed=True with reason Programmed at the read generation on the Gateway and every listener status; nothing but Programmed and given addresses changes |
| `GatewayStatuses.MarkListenerResolvedRefs` | controller/internal/status/writer.go:176-201 | the search loop and upsert compute the refusal status and write iff it differs |
| `GatewayStatuses.ResolvedRefsStatusFacts` | controller/internal/status/writer.go:181-196 | only ResolvedRefs of the first listener status with the name changes, to the given value at the current generation |
| `GatewayStatuses.SuccessIsFixpoint` | controller/internal/status/writer.go:58-170 | after `MarkAccepted` and `MarkProgrammed` from any status, both repeated at any later time change nothing |
| `GatewayStore.OtherConditionsSurvive` | controller/internal/status/writer.go:51-202 | over every concurrent run, Gateway conditions of types the controller does not own are what the other controllers' writes alone would leave |
| `GatewayStore.OtherListenerConditionsSurvive` | controller/internal/status/writer.go:80-123 | over every concurrent run, for every listener that has a status and stays in the spec, listener conditions of types the controller does not own are what the other controllers' writes alone would leave |
| `GatewayStore.ProgrammedLifecycle` | controller/internal/status/writer.go:51-202 | over every concurrent run with edits: types unique; accepted versions mirror the spec with no stale Programmed=True; Programmed=True is never lost within a generation, on the Gateway or a listener; only `MarkProgrammed` introduces it, on the Gateway or on any listener |
| `GatewayStore.AcceptedIsMirrored` | controller/internal/status/writer.go:47-129 | a `MarkAccepted` that reports success, with or without a write, vouches for a version whose Gateway and listeners show Accepted=True and ResolvedRefs=True at its generation, Programmed True or pending, in spec order |
| `GatewayStore.StatusWritesAreFiltered` | controller/internal/membercluster/handler.go:189-201 | in every run an update event from any version to any later one passes `objectChanged` iff a commit in between edited the spec or began the deletion of a Gateway not yet being deleted, so status writes never enqueue |
| `Hostnames.Sample` | controller/internal/status/writer.go:443-454 | every valid pattern matches some concrete hostname, which is constructed |
| `Hostnames.IntersectionIsExact` | controller/internal/status/writer.go:443-454 | for valid patterns the test holds iff some concrete hostname matches both, wildcard against wildcard included |
| `Hostnames.RouteIntersectionIsExact` | controller/internal/status/writer.go:431-441 | a listener and a route's hostname list intersect iff both serve some concrete hostname |
| `ReferenceGrants.ReferenceGrantAllows` | controller/internal/status/writer.go:518-535 | the two-loop test decides whether one from entry and one to entry of the grant match |
| `ReferenceGrants.GatewayReferenceGrantAllows` | controller/internal/gateway/reconciler.go:318-330 | the separately written nested loop decides the same meaning for Gateways and Secrets |
| `ReferenceGrants.ReferencePermitted` | controller/internal/status/writer.go:502-516 | permitted iff same namespace or some listed grant allows; a failed list permits nothing |
| `ReferenceGrants.GatewaySecretReferencePermitted` | controller/internal/gateway/reconciler.go:298-316 | the same, with the reference's namespace defaulting to the Gateway's |
| `RouteAcceptance.RouteAcceptedByGateway` | controller/internal/status/writer.go:350-383 | the two-flag loop errs iff the first decisive listener fails, accepts iff it says yes, and gives each refusal reason iff its own condition on the listeners holds; without lookup errors the result is the order-free verdict |
| `RouteAcceptance.AttachmentIsExact` | controller/internal/status/writer.go:350-416 | the specification of that loop: error, acceptance and each refusal reason hold exactly under their own condition on the listeners, with or without lookup errors |
| `RouteAcceptance.ListenerAllowsMeans` | controller/internal/status/writer.go:385-429 | allowedRoutes on its own fields: a non-empty kinds list must name the kind; All admits every namespace, Same or nothing the own one, a selector the found namespaces it matches with an error iff it does not compile or the read fails, anything else none |
| `RouteAcceptance.SelectedMeans` | controller/internal/status/writer.go:354-362 | section name, port and protocol on the fields of listener and reference |
| `RouteAcceptance.AdvertisedIffSupported` | controller/internal/status/writer.go:598-669 | a listener's status advertises exactly the route kinds that can be accepted on it |
| `RouteAcceptance.VerdictIsOrderFree` | controller/internal/status/writer.go:350-416 | verdict and absence of lookup errors are invariant under every permutation of the listeners |
| `RouteAcceptance.OrderFreeIff` | controller/internal/status/writer.go:368-374 | the outcome is the same for every permutation iff no lookup fails or no listener accepts |
| `RouteAcceptance.OrderMattersWithErrors` | controller/internal/status/writer.go:368-374 | a concrete Gateway and snapshot where swapping two listeners turns acceptance into an error |
| `RouteAcceptance.AcceptedIffServed` | controller/internal/status/writer.go:350-454 | with valid hostnames a route is accepted iff a listener that selects and allows it serves a concrete hostname with it |
| `RouteAcceptance.BackendRefsResolved` | controller/internal/status/writer.go:456-491 | resolved iff every backend is, otherwise the finding of the first that is not, errors included |
| `RouteAcceptance.CheckBackendMeans` | controller/internal/status/writer.go:457-489 | one backend on its own fields: ok, or refused as InvalidKind, RefNotPermitted or BackendNotFound under its own condition, or undecided iff the Service read failed |
| `RouteParents.NormalizedIsRecognised` | controller/internal/status/writer.go:567-658 | every matching parentRef, once normalised, is recognised by the merge's filter for its Gateway and by no other Gateway's |
| `RouteParents.RefMatchesMeans` | controller/internal/status/writer.go:567-581 | a parentRef names a Gateway iff group, kind, namespace and name do, absent ones by their defaults |
| `RouteParents.MergeRouteParents` | controller/internal/status/writer.go:619-641 | on slices: the result is the merge of the old values, and neither the old list nor a condition array reachable from it is written |
| `RouteParents.MergeFacts` | controller/internal/status/writer.go:619-641 | other controllers' entries stay in order, this Gateway's become the refreshed parents, every other Gateway's stay as they were |
| `RouteParents.RefreshReports` | controller/internal/status/writer.go:620-631 | the refreshed entries say exactly what was computed, parent by parent and condition by condition |
| `RouteParents.MergesCommute` | controller/internal/status/writer.go:619-641 | merges for distinct Gateways commute as multisets |
| `RouteParents.MergeFixpoint` | controller/internal/status/writer.go:619-641 | merging parents that differ only in time returns the same sequence, repeated parentRefs included |
| `RouteParents.OthersEntryKeptIff` | controller/internal/status/writer.go:643-658 | exactly when a merge keeps an entry about another Gateway: it names its namespace, or the names differ |
| `RouteParents.OthersEntryLost` | controller/internal/status/writer.go:643-658 | a concrete entry without a namespace that another Gateway's merge drops |
| `RouteStatuses.RouteParentStatuses` | controller/internal/status/writer.go:309-348 | one entry per matching parentRef in order, each with the reference spelled out, the exact acceptance outcome under Accepted and the exact backend finding under ResolvedRefs, at the route generation |
| `RouteStatuses.ParentsAreExact` | controller/internal/status/writer.go:309-348 | an error iff the first bad backend or the first decisive listener of a matching parentRef is one whose lookup failed; otherwise the exact entries |
| `RouteStatuses.ParentsAgree` | controller/internal/status/writer.go:309-348 | computed parents are normalised for the Gateway, have unique condition types, agree on repeated references and differ between times only in timestamps |
| `RouteStatuses.EntriesWithoutErrors` | controller/internal/status/writer.go:316-348 | without lookup errors every matching parentRef gets an entry that shows the order-free verdict under Accepted |
| `RouteStatuses.MarkRouteFixpoint` | controller/internal/status/writer.go:221-236 | marking a route again in an unchanged cluster writes nothing, at any later time |
| `RouteStore.RouteParentsOverRuns` | controller/internal/status/writer.go:214-241 | over every concurrent run, each attempt with its own cluster reads, a Gateway's entries are what its last committed marker computed from the version just before and from what that attempt read, or the initial ones if none committed |
| `RouteStore.ForeignEntriesSurvive` | controller/internal/status/writer.go:214-241 | over every concurrent run and from any initial entries, other controllers' entries are, in order, what those controllers last wrote |
| `RouteStore.EveryListIsWoven` | controller/internal/status/writer.go:633-640 | what other controllers may do to the shared list is any list with the controller's own entries unchanged in order |
| `ReconcileRuns.ProgrammedSafety` | controller/internal/gateway/reconciler.go:53-156 | in every run a stored Programmed=True at the current generation was written at the current revision by one call that had before found every certificate of the spec it read permitted and complete, an available replica and an address |
| `ReconcileRuns.ClaimIsCheckedIff` | controller/internal/gateway/reconciler.go:80-152 | for every write of Programmed in every run and every spec the Gateway has had: the writing call had checked all certificates of that spec iff the spec the call read required them all |
| `ReconcileRuns.RefsAreCheckedIff` | controller/internal/gateway/reconciler.go:80-152 | the same on references, so that a renamed listener keeps its checked certificate: the call had found all references of a spec good iff the spec it read asks for them all |
| `ReconcileRuns.FixedRevisionIsChecked` | controller/internal/gateway/reconciler.go:80-152 | if the revision did not change between read and write, the writing call had checked every certificate of the spec it claims |
| `ReconcileRuns.EditDuringCallIsClaimed` | controller/internal/gateway/reconciler.go:144-148 | a concrete run where an edit during the call is claimed as programmed with its certificate never checked |
| `ReconcileOrder.EverythingInOrder` | controller/internal/gateway/reconciler.go:53-156 | in every run each thing a call does comes after all it needs, by the same call and for the spec it read: acceptance after its class was found ours, applies after every certificate passed and one after the other, refusals for the first failing check and its reason, Programmed last, cleanup only if missing or not ours |
| `ReconcileOrder.DecisionsAreDue` | controller/internal/gateway/reconciler.go:56-81 | in every run a call accepts only a Gateway it found to be ours, cleans up only one it found missing or not ours, returns success only after cleaning up or after everything, and an error only after an error or a failed check |
| `ReconcileOrder.IsOursMeans` | controller/internal/gateway/reconciler.go:447-456 | a class is ours iff it is found with this controller's name, undecided iff the read failed |
| `StatusRefinement.StepIsCommit` | controller/internal/gateway/reconciler.go:80-152 | every step of a reconcile run changes the stored Gateway as one allowed commit of the optimistic store does, or not at all |
| `StatusRefinement.RunIsReplay` | controller/internal/gateway/reconciler.go:53-156 | between re-creations the Gateway that a whole run leaves is the one-at-a-time replay of its commits, as `NoLostUpdate` says of the store |
| `TlsAssets.ValidateGatewayTlsAssets` | controller/internal/gateway/reconciler.go:228-264 | accepts iff every required check passes, otherwise reports the first failing check and its reason |
| `TlsAssets.RequireInfraSecretKeys` | controller/internal/gateway/reconciler.go:282-296 | true iff the Secret is found and both keys are non-empty |
| `TlsAssets.ValidatedIff` | controller/internal/gateway/reconciler.go:228-264 | a Gateway validates iff each of its own references names a core Secret, is permitted for its namespace and has both keys |
| `TlsAssets.ListenerChecksMean` | controller/internal/gateway/reconciler.go:266-280 | a listener is checked iff it terminates TLS: each certificateRef in order, or the fact that there is none |
| `TlsAssets.MissingRefIsRefused` | controller/internal/gateway/reconciler.go:229-236 | a listener that terminates TLS without a certificateRef is never validated |
| `TlsAssets.RefProblemMeans` | controller/internal/gateway/reconciler.go:237-248 | why a reference is refused: InvalidCertificateRef iff it is not a core Secret or lacks a key, RefNotPermitted iff no grant admits it |
| `TlsAssets.SecretNameMeans` | controller/internal/gateway/reconciler.go:544-557 | only references to core Secrets, spelled out or by default, have a name |
| `TlsAssets.CheckedAreCollected` | controller/internal/gateway/reconciler.go:500-526 | for every Gateway the Secret names that validation looks up are, in order, those of the two separately written collectors |
| `TlsAssets.CollectCerts` | controller/internal/gateway/reconciler.go:470-482 | the loop over the listed Gateways fails iff a class lookup fails and otherwise collects the names of all Gateways of ours in order |
| `TlsAssets.RefreshIstiod` | controller/internal/gateway/reconciler.go:462-498 | no-op iff no kubeconfig, error iff a class lookup fails, otherwise the rendering of the names of all our Gateways and the CA names |
| `TlsAssets.ValidatedAreMounted` | controller/internal/gateway/reconciler.go:228-280 | every reference that a validated Gateway of ours must have checked is permitted for it, has both keys and is mounted at its own path by every refresh over a list with that Gateway |
| `TlsAssets.ValidatedHasKeys` | controller/internal/gateway/reconciler.go:237-248 | in a validated Gateway every check is of a permitted reference with both keys, and a name is collected iff it is the name of such a reference of this Gateway |
| `TlsAssets.NothingElseIsMounted` | controller/internal/gateway/reconciler.go:470-483 | every mounted certificate is named by a listed Gateway of ours or is a CA name |
| `TlsAssets.RefreshDependsOnSets` | controller/internal/gateway/reconciler.go:470-493 | listing the same Gateways and CA names in any order and with any repetition renders the identical pod template |
| `CertSet.SortedUniq` | controller/internal/provisioner/render.go:83-101 | strictly increasing, with exactly the non-empty input names |
| `CertSet.RenderIstiod` | controller/internal/provisioner/render.go:178-252 | volumes, mounts and hash are those of the sorted set of the names |
| `CertSet.RenderingDependsOnSet` | controller/internal/provisioner/render.go:170-252 | two name lists with the same non-empty members render the identical pod template and hash |
| `CertSet.EveryCertIsMounted` | controller/internal/provisioner/render.go:183-199 | each name has a volume from its Secret and a mount of that volume at `/var/run/tls/` followed by the name |
| `CertSet.PodShape` | controller/internal/provisioner/render.go:222-252 | the two fixed volumes and mounts, then one per certificate in order, and the hash annotation |
| `CertSet.MountPathsDistinct` | controller/internal/provisioner/render.go:194-198 | no two certificates share a mount path, whatever their names, nor take a fixed one |
| `CertSet.VolumeNamesDistinct` | controller/internal/provisioner/render.go:183-193 | for DNS-label names of at most 59 characters volume names differ from each other and from the fixed ones |
| `CertSet.VolumeNamesEqualIff` | controller/internal/provisioner/render.go:113-128 | for names of at most 59 characters with alphanumeric ends, two Secrets share a volume name iff sanitising makes them equal |
| `CertSet.VolumeNamesCollide` | controller/internal/provisioner/render.go:113-128 | Secrets `a.b` and `a-b` get one volume name |
| `CertSet.HashFollowsSet` | controller/internal/provisioner/render.go:103-111 | equal hash annotations mean equal certificate lists, or two different texts that share eight digest bytes |
| `Names.SafeDNSLabel` | controller/internal/provisioner/render.go:113-128 | the builder loop computes the sanitised, trimmed and truncated name |
| `Names.LabelIsValid` | controller/internal/provisioner/render.go:113-142 | for every input, digest and case table the name is 1 to 63 characters of `[a-z0-9-]` with alphanumeric ends (section 2.1 of RFC 1123) |
| `Names.LongNamesFollowDigest` | controller/internal/provisioner/render.go:134-142 | two over-long names that truncate alike share their kept beginning and five digest bytes |
| `Names.LabelOfLabel` | controller/internal/provisioner/render.go:113-142 | parts that already join to a label are kept as they are |
| `Names.EmptyLabel` | controller/internal/provisioner/render.go:123-127 | a text without an alphanumeric character becomes `x` |
| `Names.GatewayNamePrefix` | controller/internal/provisioner/render.go:399-401 | infra names are valid, begin with `gw`, and with `gw-` iff namespace or name has an alphanumeric character |
| `Names.GatewayNamesEqualIff` | controller/internal/provisioner/render.go:399-401 | for label keys of together at most 59 characters, infra names are equal iff the keys are equal or one is the other with leading dash-separated parts of its name moved into the namespace |
| `Names.TokenNamesEqualIff` | controller/internal/provisioner/render.go:403-405 | the same for token Secret names, up to 53 characters |
| `Names.GatewayNamesFollowSanitized` | controller/internal/provisioner/render.go:399-401 | for any keys that fit and whose names end alphanumerically, dots included, infra names are equal iff the sanitised joined keys are |
| `Names.LongGatewayNames` | controller/internal/provisioner/render.go:134-142 | for label keys of any length a shared infra name means one joined text, a digest collision, or a short key that spells another's truncated name |
| `Names.GatewayNamesCollide` | controller/internal/provisioner/render.go:399-405 | a concrete pair: Gateways `a-b/c` and `a/b-c` share object and token Secret names |
| `ServicePorts.RenderServicePorts` | controller/internal/provisioner/render.go:546-575 | the seen-set loop computes the first-occurrence port list, or the default port |
| `ServicePorts.RenderedFacts` | controller/internal/provisioner/render.go:546-575 | never empty, uniquely named, exposing a port iff some listener has it, as `p-` and its number over TCP with node port 0; without listeners the HTTP default |
| `ServicePorts.OccurrencesInOrder` | controller/internal/provisioner/render.go:551-565 | exposed ports come in the order in which the listeners first mention them |
| `ServicePorts.DecimalInjective` | controller/internal/provisioner/render.go:558-558 | decimal rendering of ports is injective |
| `ServicePorts.Service.PreserveFrom` | controller/internal/provisioner/apply.go:51-66 | in place: network fields are the current ones and each port inherits from its first match, all else of it unchanged |
| `ServicePorts.PortMatchesMeans` | controller/internal/provisioner/apply.go:68-73 | ports match by name if both are named, and otherwise by number and protocol |
| `ServicePorts.NodePortsAreKept` | controller/internal/provisioner/apply.go:51-73 | over an earlier rendering every port named in both keeps its node port, others ask for node port 0, and inherited node ports stay distinct |
| `ServicePorts.NodePortIsStable` | controller/internal/provisioner/apply.go:51-100 | over every history of applies a port keeps its node port for as long as every rendering exposes it |
| `Ownership.RenderedMeans` | controller/internal/provisioner/render.go:371-397 | rendered objects carry the controller's label and the Gateway's two source annotations, and a cleanup may delete one iff it is for the same Gateway |
| `Ownership.Cluster.Apply` | controller/internal/provisioner/apply.go:75-100 | refused iff labelled for another manager, otherwise created or replaced by the rendering; nothing else changes |
| `Ownership.Cluster.DeleteManaged` | controller/internal/gateway/reconciler.go:427-445 | removes the object iff it is ours and not annotated for another Gateway |
| `Ownership.Cluster.DeleteAgentGateway` | controller/internal/gateway/reconciler.go:409-425 | the three deletes of one cleanup |
| `Ownership.DeleteEachExact` | controller/internal/gateway/reconciler.go:409-445 | a cleanup removes exactly the listed objects that are ours and not another Gateway's, and changes no other |
| `Ownership.ApplyIsThreeSteps` | controller/internal/provisioner/apply.go:75-100 | begin, a current read and the write in the transition system change the store exactly as the `Apply` method does |
| `Ownership.DeleteIsThreeSteps` | controller/internal/gateway/reconciler.go:427-445 | begin, a current read and the Delete change the store exactly as the `DeleteManaged` method does |
| `Ownership.OwnershipIsRespected` | controller/internal/provisioner/apply.go:38-100 | in every interleaving with stale reads and with status writes by others no create or update replaces another manager's object, and every removal by a cleanup is as `CleanupIsSafeIff` says |
| `Ownership.CleanupIsSafeIff` | controller/internal/gateway/reconciler.go:427-445 | for every removal in every run: of an object applied for some Gateway, through any writes by others that leave label and annotations alone, it is safe iff the cleanup's guard holds of the object as it is at the Delete; the guard holds if the version is the one read; another manager's object goes only if it is not the version read |
| `Ownership.AtomicCleanupIsSafe` | controller/internal/gateway/reconciler.go:427-445 | a cleanup whose read is current and whose Delete follows at once removes only an object that is ours and was not last applied for another Gateway |
| `Ownership.InterleavedCleanupRemovesAnothers` | controller/internal/gateway/reconciler.go:427-445 | a concrete run where a cleanup deletes the object that a Gateway with a colliding name has just applied |
| `Tokens.TokenKeeper.EnsureToken` | controller/internal/gateway/reconciler.go:332-392 | whatever the read of the Secret returned: a token read as current is kept and its expiration returned; otherwise the new expiration is returned and the grant stored, or not stored when Create found the Secret there; an error leaves the Secret as it was |
| `Tokens.RotatesExactlyWhenDue` | controller/internal/gateway/reconciler.go:394-407 | a token of ours that was read is replaced iff it has at most four hours left, and otherwise its expiration is returned |
| `Tokens.TokenKeeper.Reconcile` | controller/internal/gateway/reconciler.go:103-110 | succeeds iff there is an expiration and the Deployment apply did not fail; it stamps that expiration iff the apply stored the Deployment |
| `Tokens.TokenStaysFresh` | controller/internal/gateway/reconciler.go:332-407 | if each three-hour tick leads to a success within delta, reads are at most lag behind and grants outlive the window by more than lag (or reads are arbitrarily stale, expirations do not go backwards and no Create is swallowed), then at every later moment the stored token has strictly more than one hour less delta left |
| `Tokens.ExpiryFollowsLastRotation` | controller/internal/gateway/reconciler.go:332-392 | over every history what is stored and until when it is good is decided by the last round that stored a token, and by the initial Secret if none did |
| `Tokens.StaleReadHidesExpiry` | controller/internal/gateway/reconciler.go:348-353 | a concrete history where a stale read counts an older, longer token as current |
| `Tokens.SwallowedCreateHidesExpiry` | controller/internal/provisioner/apply.go:83-89 | a concrete history where a Create that finds the Secret there counts as a success with a nearly expired token stored |
| `Tokens.PodsFollowToken` | controller/internal/gateway/reconciler.go:103-110 | exactly when a success leaves the pods with the Secret's expiration; it does if its applies stored what they were given and a kept token is the stored one |
| `Tokens.PodsLagIff` | controller/internal/gateway/reconciler.go:103-110 | exactly when pods and Secret differ after a round: it rotated to another expiration without stamping it, it stamped one other than the stored, or it wrote nothing and they differed |
| `Tokens.PodsLagOverHistory` | controller/internal/gateway/reconciler.go:103-110 | over every history the two differ iff the last round that wrote anything left them so, or none wrote and they already did |
| `Tokens.PodsCanLag` | controller/internal/gateway/reconciler.go:103-110 | a concrete round that leaves the two different |
| `Tokens.SwallowedCreateLags` | controller/internal/provisioner/apply.go:83-89 | a concrete pair of successful rounds one second apart, with reads one second behind, that leaves pods and Secret different |

## Left out

- GatewayClass processing and status (`newGatewayClassProcessor`, `MarkGatewayClassAccepted`, supported features): it has no dirty bit, so only at most one call in flight holds, and the status part repeats the upsert.
- Kubernetes clients, informers, leader election, tickers, flags, timeouts and logging: I/O, abstracted as the versioned stores and event steps.
- The `run` loop as one method: its rounds are steps of the transition system; its critical sections and its retry loop are methods.
- Delivery of every update event: `objectChanged` looks at generation and deletion only, so other changes are not promised.
- Static fields of rendered Deployments and Services, the AKS variants of volume source and Service type, and labels other than the managed-by label: constants settled by reading.
- SHA-256, RFC 3339, Unicode case tables and label selectors: library code, present as parameters.
- `Conditions.Append`: the growth factor of Go's append is not modelled, only that a full slice moves to a new array.
- The Gateway status bodies work on condition values: listener statuses that share one backing array, which only repeated listener names can cause, are not told apart there.
- The in-place sort of `sort.Strings`: `SortedUniq` sorts a sequence by insertion.
- Messages of refused certificates and the text of returned errors: only the reason and the refused check are modelled.
- Status idempotence when TLS validation fails: `MarkAccepted` resets ResolvedRefs to True before validation sets it False again, so it does not hold.
- A status write that commits although its reply is lost: such a call ends without the step's effect in `ReconcileRuns`.
- The list errors of `RefreshIstiod` and of the route lists, and an error of the Istiod apply: they end the operation without an effect.
- `backendTLSPolicyCACertNames`: its result is a parameter of `RefreshIstiod`.
- Reading load-balancer ingress into addresses and counting available replicas: the steps say what was seen.
- Names that need truncation: two of them can also share a digest prefix, so past 63 characters `LongGatewayNames` and `LongNamesFollowDigest` say what a shared name means, in one direction.
- Another writer of the token Secret: only this controller's rounds change it.
- `EnsureNamespace`, the ServiceAccount objects and `safeLabelValue`: they would only add easy members.
- `xds-echo`, scripts, manifests, the conformance harness and the Istio and agentgateway forks: no part of this model.
