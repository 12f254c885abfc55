# namespace-watchers, modelled in Dafny

The repository ships three interchangeable ways of reacting to new namespaces
in a cluster. Each one gives an eligible new namespace a run-once `echo-pod`
that echoes the namespace's name.

* The **controller** is a level-triggered reconciler. An event filter
  (`predicateFuncs`) sits in front of a work queue. Each reconcile pass
  re-reads the namespace and runs a finalizer state machine:
  - it claims a new namespace by adding the `microsoft.com/namespace-watcher`
    finalizer;
  - it releases the claim when deletion is requested;
  - otherwise it runs the pod executor.
* The **watcher** is an edge-triggered loop over one watch subscription. It
  acts only on `Added` events. The first executor error ends the loop. A
  closed channel ends it with "watcher stopped".
* The **informer** registers only an add handler. The handler logs the
  executor's errors and drops them.

All three share the same two building blocks:
* an eligibility filter: the name is not excluded, and the creation time is
  strictly after the start time;
* a pod executor: look the pod up, return if it exists, hand back any error
  other than "not found", otherwise create it.

## How the model is built

The API server is a value, `Registry.State`. It holds:
* the namespaces by name;
* the pods by namespace and name;
* the log of every request issued;
* a map of injected failures: request number `i` fails if `i` is a key.

A failed request (a write conflict, a timeout, a quota refusal) is an entry
of the failure map, and a failed request changes nothing. Properties stated
for every failure map therefore hold for every pattern of refused requests.
They rest on three assumptions about the server, listed under "## Left out":
a failed request was not applied, every read sees the latest state, and
between requests only the watchers' own requests change the registry. The
client connection is the class
`Registry.Cluster`, which holds the same state in place. Each of its request
methods is proved equal to the matching pure function on `State`.

Each imperative piece of the source is a method proved against a function,
and the properties are lemmas about those functions:
* the reconciler's `Reconcile`, `createEchoPod` and its exclusion scan;
* the watch loop;
* the informer's handler and its deliveries.

A namespace keeps only what the three programs read:
* its name;
* its creation time, as an integer, since it is only compared with a strict
  "after";
* whether deletion was requested, since the deletion timestamp is only
  tested for zero;
* its finalizers.

Two behaviours of the source worth stating:

* The executor does not treat "already exists" on creation as success:
  `Registry.State.CreatePod` answers `AlreadyExists`, and the executor hands
  that error back like any other. What happens next depends on the caller.
  The controller returns it, so the key is retried
  (namespace_controller.go lines 215-217). The informer logs it and drops it
  (informer kubernetes.go lines 56-59). The watch loop returns it and so ends
  its subscription (watcher kubernetes.go lines 61-64).
* The controller's filter lets every creation event through, not only the two
  update transitions (deletion requested, finalizer added).

## Model

| member | source | states |
|---|---|---|
| Registry.Cluster.GetNamespace | modules/controller/internal/controller/namespace_controller.go:97 | The namespace lookup logs one request and answers with the namespace, "not found", or the injected failure; nothing else changes. |
| Registry.Cluster.UpdateNamespace | modules/controller/internal/controller/namespace_controller.go:123 | The full-object update answers with the injected failure if there is one; otherwise it stores the object under its name when that namespace exists, and answers "not found" when it does not. Only a successful update changes a namespace. |
| Registry.Cluster.GetPod | modules/controller/internal/controller/namespace_controller.go:203 | The pod lookup answers with the pod, "not found", or the injected failure, and changes no object. |
| Registry.Cluster.CreatePod | modules/controller/internal/controller/namespace_controller.go:215 | Creation fails in four cases: the namespace is missing, it is being terminated, the key is taken, or a failure is injected. Otherwise the pod is inserted under its key. |
| Eligibility.CreatedAfter | modules/controller/internal/controller/namespace_controller.go:164-166 | `After` is strict: a namespace created at the very start instant counts as pre-existing. The same guard is at watcher kubernetes.go line 56 and informer line 51. |
| Eligibility.Eligible | modules/watcher/internal/kubernetes/kubernetes.go:45-58 | A namespace is acted on exactly when no entry of the exclusion list equals its name, as `slices.Contains` scans it, and it was created after the start time. |
| EchoPod.Manifest | modules/watcher/internal/kubernetes/kubernetes.go:77-96 | The pod is `echo-pod` in the given namespace with restart policy Never. Its container runs `sh -c` with the message "echo namespace: " followed by the namespace, which the namespace can be read back from. |
| EchoPod.Outcome | modules/watcher/internal/kubernetes/kubernetes.go:100-119 | The executor only ever adds its own pod, and only when that pod was absent. It issues the lookup and at most one creation. It changes no namespace. It succeeds only if the pod exists afterwards. |
| EchoPod.CreateEchoPod | modules/watcher/internal/kubernetes/kubernetes.go:76-120 | The executor method's new registry state and error are those of `EchoPod.Outcome`. |
| EchoPod.GetThenCreate | modules/informer/internal/kubernetes/kubernetes.go:110-129 | There are three lookup outcomes. If the pod exists: success with no write. If the lookup fails: that error is handed back. If the pod is not found: a creation of the manifest follows, and it succeeds exactly when no failure hits it and the namespace exists and is not being deleted. |
| EchoPod.CreateIsIdempotent | modules/watcher/internal/kubernetes/kubernetes.go:100-105 | After a successful run, a second run issues only the lookup and creates nothing. |
| NamespaceController.Admits | modules/controller/internal/controller/namespace_controller.go:42-66 | On updates, the filter admits exactly two kinds of phase transition. One goes from Unclaimed or Claimed to Releasing or Released: deletion was requested. The other goes from Unclaimed or Released to Claimed or Releasing: the finalizer was added. |
| NamespaceController.CreateEchoPodOutcome | modules/controller/internal/controller/namespace_controller.go:169-220 | The reconciler's executor never changes a namespace. A namespace created at or before the start time gets no request and a success. Pods change only for a newer namespace, and success for it means its echo pod exists. |
| NamespaceController.ReconcileOutcome | modules/controller/internal/controller/namespace_controller.go:92-150 | A pass issues one of four request shapes: the get alone; get and update; get and pod lookup; or get, pod lookup and pod creation. Every update is a claim or a release. Pod requests target only the key's own namespace. Namespaces change only at the key. Pods gain at most the echo pod. |
| NamespaceController.Act | modules/controller/internal/controller/namespace_controller.go:106-149 | Once the namespace is read, the pass issues one of three things: nothing, one update that is a claim or a release of that namespace, or the lookup and at most one creation of that namespace's echo pod. Namespaces change only by that update. Pods gain at most that echo pod, and only when it was absent. |
| NamespaceController.ReconcileAll | modules/controller/internal/controller/namespace_controller.go:158-160 | Passes delivered by the work queue keep the failure map and only extend the log. |
| NamespaceController.NamespaceReconciler.constructor | modules/controller/internal/controller/namespace_controller.go:70-75 | The reconciler holds its client, its exclusion list and its start time. |
| NamespaceController.NamespaceReconciler.IsExcluded | modules/controller/internal/controller/namespace_controller.go:107-113 | The scan over `ExcludedNamespaces` reports true exactly when the name is in the list. |
| NamespaceController.NamespaceReconciler.Reconcile | modules/controller/internal/controller/namespace_controller.go:92-150 | The pass's new registry state and returned error are those of `ReconcileOutcome`. |
| NamespaceController.NamespaceReconciler.CreateEchoPod | modules/controller/internal/controller/namespace_controller.go:169-221 | The reconciler's executor skips namespaces created at or before the start time and otherwise behaves as the shared executor. |
| NamespaceController.AdmittedUpdateChangesPhase | modules/controller/internal/controller/namespace_controller.go:49-62 | Every update the filter admits moves the namespace to another phase: Unclaimed, Claimed, Releasing or Released. |
| NamespaceController.OwnUpdatesAndTheFilter | modules/controller/internal/controller/namespace_controller.go:49-62 | For the pass's own update, the filter admits it exactly when it is a claim: the claim triggers a further pass, and the release does not. |
| NamespaceController.LookupFailure | modules/controller/internal/controller/namespace_controller.go:96-104 | A namespace that is not found ends the pass successfully with nothing written. Any other lookup error is handed back. |
| NamespaceController.ExcludedNamespaceIsSkipped | modules/controller/internal/controller/namespace_controller.go:106-113 | An excluded namespace is read and nothing else is issued. |
| NamespaceController.ClaimBranch | modules/controller/internal/controller/namespace_controller.go:115-128 | A namespace that is unclaimed, not deleting and new gets one update adding the finalizer and no pod in that pass. The update's error is handed back. |
| NamespaceController.DeletionBranch | modules/controller/internal/controller/namespace_controller.go:130-145 | For a namespace being deleted, the finalizer is removed with one update if present, nothing is written if absent, and no pod is created. The release succeeds exactly when no failure hits the update and the namespace still exists. A failed release is handed back for a retry and leaves the namespace unchanged, still holding the finalizer. |
| NamespaceController.PodBranch | modules/controller/internal/controller/namespace_controller.go:147-174 | When neither the claim branch nor the deletion branch applies, the pass runs the executor exactly when the namespace is newer than the start time. Otherwise it succeeds with nothing written. |
| NamespaceController.PreExistingNamespaceIsLeftAlone | modules/controller/internal/controller/namespace_controller.go:163-166 | A namespace created at or before the start time gets no pod lookup or creation. No update ever adds the finalizer to it. |
| NamespaceController.PassFramesOthers | modules/controller/internal/controller/namespace_controller.go:92-150 | A pass for one key changes no other namespace and creates no pod in any other namespace. |
| NamespaceController.PassLeavesPreExistingAlone | modules/controller/internal/controller/namespace_controller.go:115-128 | A pass over an unclaimed pre-existing namespace issues no update and no creation. |
| NamespaceController.PreExistingNamespaceNeverTouched | modules/controller/internal/controller/namespace_controller.go:115-128 | Over any sequence of passes, an unclaimed pre-existing namespace keeps its object unchanged and never sees a pod creation. |
| NamespaceController.PodPassCreates | modules/controller/internal/controller/namespace_controller.go:201-220 | On a server that does not fail, a pass that issues three requests created the echo pod of its own key, which was absent before. |
| NamespaceController.PassCreatesAtMostOnce | modules/controller/internal/controller/namespace_controller.go:201-220 | On a server that does not fail, one pass creates a namespace's echo pod at most once, and only if the pod was absent. |
| NamespaceController.EchoPodCreatedAtMostOnce | modules/controller/internal/controller/namespace_controller.go:201-220 | On a server that does not fail, however often and in whatever order keys are delivered, a namespace's echo pod is created at most once, and never if it already existed. |
| NamespaceController.ClaimThenProvision | modules/controller/internal/controller/namespace_controller.go:115-149 | On a server that does not fail, a new eligible namespace is claimed by the first pass, and the filter admits that update. The second pass creates exactly the echo pod. A third pass changes nothing. |
| NamespaceController.ReleaseOnDeletion | modules/controller/internal/controller/namespace_controller.go:130-145 | On a server that does not fail, for a claimed namespace whose deletion is requested, the filter admits the update and the pass removes the finalizer in one update. The filter holds that update back, and a later pass writes nothing. |
| Watcher.Step | modules/watcher/internal/kubernetes/kubernetes.go:44-64 | One event: only the addition of an eligible namespace reaches the executor, whose outcome is the step's. Every other event changes nothing and lets the loop go on. |
| Watcher.Drain | modules/watcher/internal/kubernetes/kubernetes.go:40-69 | The corrected loop (status payloads passed over, see ## Findings) never changes a namespace or the failure map, and only extends the log. |
| Watcher.WatchNamespace | modules/watcher/internal/kubernetes/kubernetes.go:40-72 | The corrected loop (status payloads passed over, see ## Findings) always returns an error, and its new registry state and error are those of `Watch`. |
| Watcher.OnlyEligibleAddsAreActedOn | modules/watcher/internal/kubernetes/kubernetes.go:44-58 | Every request the loop issues is for the echo pod of a namespace with an eligible `Added` event in the stream. Exclusions, other event types and pre-existing namespaces cause no request. |
| Watcher.StepOnlyFor | modules/watcher/internal/kubernetes/kubernetes.go:44-64 | One event carrying a namespace only extends the log, and every request it issues is for the echo pod of that namespace, issued only when its addition is eligible. |
| Watcher.FirstErrorEndsTheLoop | modules/watcher/internal/kubernetes/kubernetes.go:60-64 | After an executor error nothing later in the stream is looked at. Without an error, the loop continues with the rest. |
| Watcher.Watch | modules/watcher/internal/kubernetes/kubernetes.go:40-72 | The corrected watch function (status payloads passed over, see ## Findings) always ends with an error, and leaves the registry as the corrected loop does. Any error other than "watcher stopped" is the loop's own. |
| Watcher.WatchNeverSucceeds | modules/watcher/internal/kubernetes/kubernetes.go:71-72 | The loop ends with the executor's error or with "watcher stopped", never with success. |
| Watcher.WatchAsWritten | modules/watcher/internal/kubernetes/kubernetes.go:40-72 | The loop as written returns only with an error and changes no namespace. It panics only if the stream holds an event whose payload is not a namespace. |
| Watcher.StatusEventPanics | modules/watcher/internal/kubernetes/kubernetes.go:40-42 | An error event carrying a status makes the loop as written panic, while the corrected loop passes over it. |
| Watcher.CorrectionKeepsNamespaceStreams | modules/watcher/internal/kubernetes/kubernetes.go:40-72 | On streams whose payloads are all namespaces, the corrected loop ends exactly as the loop as written. |
| Informer.HandleAdd | modules/informer/internal/kubernetes/kubernetes.go:40-61 | The add handler runs the executor exactly for an eligible namespace and drops its error. Any other addition changes nothing. |
| Informer.Handle | modules/informer/internal/kubernetes/kubernetes.go:39-62 | One notification changes no namespace and only extends the log. An eligible addition runs the executor. |
| Informer.HandleAll | modules/informer/internal/kubernetes/kubernetes.go:39-62 | Handled notifications never change a namespace or the failure map, and only extend the log. |
| Informer.AddFunc | modules/informer/internal/kubernetes/kubernetes.go:40-61 | The add handler's new registry state is that of `HandleAdd`. |
| Informer.Deliver | modules/informer/internal/kubernetes/kubernetes.go:37-62 | Delivering a sequence of notifications leaves the registry as `HandleAll` says. |
| Informer.IgnoredNotifications | modules/informer/internal/kubernetes/kubernetes.go:43-53 | Additions of excluded or pre-existing namespaces change nothing. So do updates and deletions, which have no handler. |
| Informer.EveryEligibleAddIsAttempted | modules/informer/internal/kubernetes/kubernetes.go:55-60 | Errors are dropped, so the pod lookups issued are exactly one per eligible addition, of that namespace's echo pod, in delivery order and with repeated additions repeated, whatever happened to earlier ones. |
| Informer.HandleLooksUpOnce | modules/informer/internal/kubernetes/kubernetes.go:43-60 | One notification makes exactly one pod lookup, of its own echo pod, if it is an eligible addition, and none otherwise. |
| Informer.HandleCreatesAtMostOnce | modules/informer/internal/kubernetes/kubernetes.go:55-60 | On a server that does not fail, for a namespace that exists and is not being deleted, one notification creates a namespace's echo pod at most once, and only if the pod was absent. An eligible addition leaves the pod present. |
| Informer.EchoPodCreatedOnce | modules/informer/internal/kubernetes/kubernetes.go:40-61 | On a server that does not fail, for a namespace that exists and is not being deleted, duplicate deliveries create a namespace's echo pod at most once. The pod is present afterwards if any of the namespace's additions was eligible. |
| EventSources.SameWorkWithoutErrors | modules/watcher/internal/kubernetes/kubernetes.go:40-69 | When the watch loop meets no executor error on the whole stream, it and the informer's add handler (informer kubernetes.go lines 40-61) fed the same stream leave the registry in the same state. |

## Left out

- Process setup is not modelled: in-cluster configuration, client construction and the watch subscription (watcher kubernetes.go lines 19-37, informer lines 20-35). These are I/O, and their errors only end the function.
- The informer's lifecycle is not modelled (informer lines 64-82). This covers running it on a goroutine and waiting for cache sync with its timeout. It is concurrency and I/O. As written, `<-stopCh` waits on a channel that only the function's own deferred `close` would close.
- Informer.AddFunc: the handler writes its error into the enclosing function's `err` variable from the informer's goroutine. That shared write is concurrency and is not modelled.
- `SetupWithManager` and its `time.Now()` are not modelled: the start time is a parameter. Registration with the controller framework is left out too. The work queue is modelled only as `ReconcileAll`'s sequence of keys.
- The framework's requeue policy is not modelled: retries are extra keys in that sequence, and `ctrl.Result` is always empty, so it is dropped.
- Logging and the container's image string (`busybox:stable`) are left out: they affect no decision.
- Three assumptions about the server bound every property stated over the failure map, and `NamespaceController.EchoPodCreatedAtMostOnce` and `Informer.EchoPodCreatedOnce` in particular. First, a failed request changes nothing, so a Create or Update that timed out after the server applied it is not modelled. Second, every lookup sees the latest state, so a stale read is not modelled. One example is a pod lookup that misses a creation the server has just accepted, followed by a second Create answered AlreadyExists. Third, between requests only the watchers' own requests change the registry, so an `echo-pod` deleted by someone else is not modelled. The next controller pass would create that pod again.
- Version-checked updates are not modelled. Write conflicts and every other server error are injected failures, and the server's `resourceVersion` comparison is not modelled.
- The server's side of deletion is not modelled: the namespace disappearing once its finalizers are gone, and pod lifecycles. The model holds whatever state the server reports.
- Concurrent reconciliation of different keys and several replicas running at once are left out. Passes are modelled one after another.
- The health-probe server, the outer restart loop in `cmd/main.go`, and the fresh start time on each restart are not part of this model.
- The informer's cache, list and resync are not modelled. It is modelled as the ordered sequence of notifications it hands to its handlers.

## Findings

| source | as written | input that shows it | evidently intended | confidence | as-written member | corrected member |
|---|---|---|---|---|---|---|
| modules/watcher/internal/kubernetes/kubernetes.go:42 | Every event's object is asserted to be a namespace before its type is looked at. | A watch `Error` event, whose object is a status (e.g. "too old resource version"), makes the unchecked type assertion panic. | Events whose object is not a namespace are passed over, like every other non-`Added` event. | not executed | Watcher.WatchAsWritten, Watcher.StatusEventPanics | Watcher.Drain, Watcher.Watch, Watcher.CorrectionKeepsNamespaceStreams |
