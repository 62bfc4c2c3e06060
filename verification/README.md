# MinIO operator: a verified model

The operator turns one MinIO object into services, claims and pods, and three reconcilers write into the status of
that object while users edit its specification. This project models the reconcilers, the names and layouts they
derive, the status-write protocol they share and the `config.env` parser, and proves what they keep, where they
converge, and exactly when they do not.

## How it is laid out

- `Types`, `Wrappers`, `Decimal`: the MinIO object, the Kubernetes objects, decimal printing.
- `Layout`: pods, volumes and claims of one pool, and when their names are unique.
- `Services`: the three service builders, the matching relation, and what a server may add to a stored service.
- `StatusStore`: the stored object behind its API server and the conflict-retry write. A client's calls consume a
  script: before each call any number of other writers' writes land, and the call may fail. Every statement over
  "any interference and any faults" quantifies over that script.
- `Protocol`: all interleavings of the three reconcilers' reads, assignments, sends and re-reads, among writes from
  outside.
- `HealthRuns`, `StatusRuns`: the two smaller reconcilers.
- `Answers`: when a write, a run or a pass reports success, told by the calls it made.
- `MainPass`: one pass of the main reconciler as a function of the cluster it meets; `Stages`, `PassFacts` and
  `PodAccount` say what each stage and the whole pass do; `Reports` what the status says afterwards; `Convergence`,
  `OnePass`, `Lifecycle`, `Closure` and `Failures` speak about runs of passes: when the pods reach the specification,
  when the claims they refer to are stored, and what goes wrong. `Contents` says what the stored pods, services and
  claims hold in the terms of the specification, and `Order` in which order a pass writes them.
- `Traces`, `PassTrace`: the runs of the three reconcilers are runs of the protocol, and what one reconciler meets in an
  interleaving are outside writes.
- `Controllers`: the same reconcilers as classes that update their objects and the cluster in place; every method is
  proved to do what the corresponding function says, so the lemmas about the functions hold of the methods.
- `Bindings`, `Config`: the last-wins map with aliases and the parser built on it.

The store is a map per kind, keyed by name: creating fails on an existing key, updating fails on a missing one and
otherwise replaces the object, a status write is accepted only at the version it was read at, and whether a write that
changes nothing raises the version is a parameter (`noopBumps`).

## Where the code departs from its evident intent

The model follows the code. What follows from each departure is proved, not just noted.

- The headless service is compared with the console service (`controllers/minio_controller.go:374`). As built it never
  passes that check, and once checked it carries the console port (`Services.HeadlessNeverMatchesConsole`,
  `PassFacts.HeadlessCarriesConsolePort`, `Contents.HeadlessBecomesOrdinary`).
- An unchanged node selector asks for an update, a changed one does not (`utils/pod.go:31`). So every pod of a settled
  cluster is rewritten on each pass, without effect (`Lifecycle.SettledPass`), and an edit of the node selector alone
  is not carried out by the pass that sees it (`OnePass.SelectorEditIgnored`). `Contents.AskedIff` says which edits
  ask for an update; of probes and affinity only replacing one by another counts.
- Updated pods are built from the recorded pool (`controllers/minio_controller.go:172`, `:196`). Exactly which edits
  one pass carries out is `OnePass.OnePassConvergesIff`; an edit inside a pool that pods show takes exactly two
  (`OnePass.PoolEditTakesTwoPasses`); enlarging a pool is never carried out, and after the first pass none succeeds
  any more (`OnePass.EnlargedPoolNeverRecovers`).
- The revision is recorded before pods exist (`controllers/minio_controller.go:108-125`), so one failed call loses an
  added pool for good (`Failures.OneFailedCallLosesPool`): a pod missing then is never created, and later passes
  succeed exactly when none is missing (`Convergence.MissingPodNeverHeals`). It is replaced by deleting and creating
  it, and when it is lost in between, the next pass fails (`Order.LostRevisionCostsOnePass`).
- Claims are created only when there are none (`controllers/minio_controller.go:406`). Exactly when a pass leaves all
  claims of its pods stored is `Closure.PassClosesIff`. It breaks in two ways: a pool added later refers to claims
  nobody creates, in the pass that adds it (`Closure.LaterPoolsCloseIff`, `Failures.AddingPoolBreaksClosure`), and so
  does a pool whose volumes or template were edited, in the pass after it, the very one that completes the edit
  (`Closure.LaterEditClosesIff`, `Closure.RaisedVolumesBreakClosure`).
- A caller's version is not refreshed by its own write (`controllers/minio_controller.go:226-241`), so a run stores at
  most one status change, a fresh object ends its first pass as None (`PassFacts.StatusAfterPass`), and a pass that
  has announced Running can no longer report that it failed (`Reports.PassReported`,
  `Reports.FaultyPassReported`).
- Template names with dashes can give two claims one name (`utils/pvc.go:23`); the exact condition is
  `Layout.ClaimNamesUniqueIff`.
- A pool's status is the phase of its last listed pod (`controllers/minio_status_controller.go:127-134`)
  (`StatusRuns.CompletedWithFailedPod`).

## Model

| member | source | states |
|---|---|---|
| Protocol.NoFieldReverted | controllers/minio_controller.go:221-242 | in every interleaving of the three reconcilers and outside writes, from any state satisfying the invariant, health status, pool, service and claim status, message, and deploy status each stand as long as their owners send nothing and nobody outside gives them another value; no retry, stale copy or echo reverts them |
| Protocol.StepOwnership | controllers/minio_status_controller.go:170-191 | in every state satisfying the invariant, of the reconcilers' actions only an accepted send changes the stored status, and only in the fields its sender assigns |
| Protocol.StepInv | controllers/minio_health_checker_controller.go:65-86 | the inductive invariant: a snapshot whose version equals the server's agrees with it on all non-owned fields, and a copy under way is such a snapshot or exactly what was re-read |
| Protocol.ReachableInv | controllers/minio_controller.go:221-242 | the invariant holds after every legal sequence of actions, aborts, failed writes and arbitrary outside writes included |
| Protocol.OneChangePerRun | controllers/minio_health_checker_controller.go:28-63 | from the start, in every interleaving, no run of any reconciler changes the stored status more than once, although two reconcilers write several times per run |
| Protocol.SendIsUpdate | controllers/minio_controller.go:230-238 | a send of the interleaving model and the status update of the store model have the same effect, conflicts and no-op writes included |
| PassTrace.PassIsTrace | controllers/minio_controller.go:78-218 | every pass of the main reconciler, under any interference and faults, is one legal run of the protocol by that reconciler: it reads once, its outside writes are in order those the pass met, and its count of changes is that of the pass; or it reads nothing and does nothing |
| Traces.HealthRunIsTrace | controllers/minio_health_checker_controller.go:28-63 | the same for every run of the health checker |
| Traces.StatusRunIsTrace | controllers/minio_status_controller.go:33-168 | the same for every run of the status controller |
| Traces.WriteTrace | controllers/minio_controller.go:221-242 | a whole status write, with all its conflicts, re-reads and errors, is a legal stretch of such a run, counts its changes alike, and leaves the in-memory object as it was |
| Traces.WholeRunChangesOnce | controllers/minio_controller.go:221-242 | from every state the invariant allows such a run keeps the invariant and changes the stored status at most once: the bound of the protocol carries over to the runs of the code |
| Traces.SeenRuns | controllers/minio_controller.go:221-242 | what one reconciler sees of any interleaving is a legal run of its own among outside writes, ending in the same server state |
| StatusStore.RetryOutcome | controllers/minio_controller.go:226-241 | a write reporting success stored the requested status at its first attempt, or met a conflict and left the status exactly as the other writes up to then have left it: never one computed from an older version |
| StatusStore.StaleChangesNothing | controllers/minio_controller.go:226-241 | a write whose version does not match on arrival leaves the status exactly as the other writes up to then have left it, whether or not it reports success |
| StatusStore.RetryFollows | controllers/minio_controller.go:221-242 | the retry always ends, versions only rise, the events are used up in order, and with no failing call it succeeds |
| StatusStore.AttemptsBounded | controllers/minio_controller.go:231-238 | the retry sends at least one status update and at most one per remaining interfering write, plus one, plus one if its version was already outdated |
| Answers.RetrySucceedsIff | controllers/minio_controller.go:226-241 | a status write reports success if and only if none of its calls failed, the re-reads after conflicts included, and, when it may not retry, its version was current on arrival |
| StatusStore.OwnedFields | controllers/minio_status_controller.go:146-157 | which fields each reconciler may change, field by field; the deploy status is shared by two of them |
| StatusStore.WriteDuringRun | controllers/minio_controller.go:221-242 | at every point of a run, under interference and faults, its writes have changed the store at most once in all, and every field its reconciler does not own is as the other writes up to that point have left it |
| StatusStore.UndisturbedWrite | controllers/minio_controller.go:226-241 | with no other writer a successful write stores what it was given exactly if its version is current, and otherwise changes at most the version |
| PassFacts.PassStatusWrites | controllers/minio_controller.go:78-218 | every pass of the main reconciler, whatever interferes and fails, changes the stored object at most once, and ends with every field but deploy status and message as the other writes during the pass have left it |
| PassFacts.StatusAfterPass | controllers/minio_controller.go:93-99 | with no other writer a successful pass ends Running, except the first over a fresh object, which ends None |
| PassFacts.FreshStatusFrozen | controllers/minio_controller.go:92-99 | with no other writer the first pass over a fresh object never shows a failure or a message, whatever fails in it, and ends None if it succeeds or no call fails |
| Reports.PassReported | controllers/minio_controller.go:78-218 | with no call failing and no other writer, exactly what the status is after a pass: None for a fresh object; Running if the pass succeeded, or if it failed after creating a service or the claims, unless the store said Running already and no-op writes keep the version; otherwise Failed with the message of the stage where a pod existed already or was missing; no other field changes |
| Reports.FaultyPassReported | controllers/minio_controller.go:78-218 | with no other writer but any failing calls, over an object that is not fresh: success leaves Running; a failed pass leaves Running only if a service or the claims were missing, otherwise the status as it was or a failure with its message, and no failure once it has created a service or a claim, unless the store said Running already and no-op writes keep the version; no other field changes |
| PassFacts.FaultFreePass | controllers/minio_controller.go:101-210 | the exact revision, services, claims and pods after a pass without failing calls, and exactly when it succeeds, whatever other status writers do meanwhile |
| Answers.PassSucceedsExactly | controllers/minio_controller.go:78-218 | when a pass over a live object reports success, under any interference and faults: only if the added pods were new and the updated ones there and no call failed, not even one of a status write, except that creations of claims are forgiven; with claims in place this is exact |
| PassFacts.NotLivePass | controllers/minio_controller.go:79-90 | over an object that is absent or being deleted a pass makes one call and nothing else, and succeeds unless that one failed |
| Lifecycle.NotLiveForever | controllers/minio_controller.go:79-90 | over every run of passes such an object keeps its revision, services, claims and pods, and its status is what the others write |
| Order.PassInOrder | controllers/minio_controller.go:101-210 | in every pass, whatever fails and whoever interferes: services are touched only once the revision records the specification and only once the ones before are in line, claims and pods only once all three are |
| Order.LostRevisionCostsOnePass | controllers/minio_controller.go:117-161 | with the revision lost over a cluster that has all its pods, one pass without failing calls fails and stores no pod, and the next one succeeds |
| Order.RevisionGap | controllers/minio_controller.go:117-124 | how it is lost: replacing it is a deletion and a creation, and when the second one fails there is none |
| Order.UpdateFailureTold | controllers/minio_controller.go:278-290 | what a service that cannot be updated is reported with, if nothing was announced before; the console and headless services say Created |
| Order.CreationFailureTold | controllers/minio_controller.go:256-266 | what one that cannot be created is reported with, where announcing Running changed nothing |
| Order.PodFailureTold | controllers/minio_controller.go:181-210 | a pod that cannot be created or overwritten is reported with the error as it came, where nothing was announced before |
| PassFacts.PassObjects | controllers/minio_controller.go:101-145 | under any interference and faults a pass removes nothing, writes no service but the three and of those none that matches, leaves existing claims alone, creates none when there are some, and leaves the revision as it was, absent, or the specification read |
| PassFacts.PassPods | controllers/minio_controller.go:147-210 | under any interference and faults every pod after a pass is unchanged, newly created for an added pool, or overwritten for an updated one |
| PodAccount.PassAccount | controllers/minio_controller.go:176-210 | what a pass without failing calls does to the pods wherever it stops: it creates the pods of added pools up to the first name that is taken, then overwrites those of updated pools up to the first that is missing, and nothing else; it succeeds when it gets to the end of both |
| PodAccount.PassSucceedsIff | controllers/minio_controller.go:176-210 | told before the pass: it succeeds if and only if the pods of added pools are all new and of distinct names and those of updated pools are all there |
| PassFacts.HeadlessCarriesConsolePort | controllers/minio_controller.go:374-391 | once checked, the headless service carries the console port and never the ports it was built with |
| PassFacts.ServicesStore | controllers/minio_controller.go:127-140 | under any faults the three checks in a row write no other service and none that matches; on success all three match at once and are exactly what each check alone settles on |
| Convergence.TwoPassesConverge | controllers/minio_controller.go:101-210 | after any edit two passes without failing calls bring every pod to the specification if and only if every pod exists after the first one's creations and no two pods of one name contradict each other |
| Convergence.UsualEditConverges | controllers/minio_controller.go:147-210 | after any edit in which kept pools have their pods and added pools are new, two passes leave every pod equal to what the layout asks for |
| Convergence.UnchangedPoolsConverge | controllers/minio_controller.go:162-210 | with the pool list unchanged one pass succeeds if and only if every pod exists, and then every pod is as specified unless pools of one name contradict each other; no pod is added or removed |
| Convergence.FirstPassUsesRecordedPool | controllers/minio_controller.go:194-198 | after one successful pass the pods of an updated pool are those of the new specification and the recorded pool |
| OnePass.OnePassConvergesIff | controllers/minio_controller.go:147-210 | a pass that gets through, as told before it, brings every pod to the specification if and only if, for each pod of each recorded pool, the pod of the recorded pool is the new one where it is overwritten, and the new one is stored already where it is not; for any edit |
| OnePass.OnePodIff | controllers/minio_controller.go:147-210 | the same pod by pod: a pod is as specified after a successful pass exactly under that condition, and always for added pools |
| OnePass.KeptPod | controllers/minio_controller.go:162-198 | what a pass leaves under the name of a recorded pool's pod: the recorded pool's pod if that is updated and has it, and otherwise what was there, or nothing |
| OnePass.SamePodsIff | utils/pod.go:39-155 | two pools of one name have the same pods if and only if they agree on volume count, template name of existing volumes, node selector and container security context |
| Contents.AskedIff | utils/pod.go:16-36 | a recorded pool is updated if and only if some pool still has its name and either the edit changes image, pull policy, pull secret or resources or replaces a probe or the affinity, or that pool kept its node selector |
| Contents.RolloutReachesPods | controllers/minio_controller.go:162-210 | after a successful pass without failing calls that reads such an edit, or finds the selector unchanged, each pod of the recorded pool holds, field by field, what the new specification and the recorded pool say |
| Contents.NoRolloutNoChange | controllers/minio_controller.go:162-210 | without such an edit a pool whose selector was changed keeps its pods as they are, whatever fails and interferes |
| Contents.AddedProbeIsNoRollout | utils/pod.go:17-29 | adding or removing probes or the affinity is no such edit, so with a changed selector it does not reach the pods |
| Contents.SpecifiedPodsRun | controllers/minio_controller.go:147-210 | end to end: after the edits an operator is meant to make and two passes, every pod of the specification is stored with its image, pull policy, probes, resources, console port, labels, volumes and mount paths |
| OnePass.PoolEditTakesTwoPasses | controllers/minio_controller.go:162-198 | in every settled cluster every edit inside a pool that its pods show, the node selector alone included, falls short after one pass and is complete after two |
| OnePass.BuiltThenEdited | controllers/minio_controller.go:101-210 | the same from nothing: for every cluster built by one faultless pass and every such edit after it, one more pass falls short and two suffice |
| OnePass.SelectorEditIgnored | utils/pod.go:31 | an edit of a node selector alone leaves that pool's pods as they are in the pass that sees it, whatever fails and interferes |
| OnePass.LaterPassesSucceedIff | controllers/minio_controller.go:147-210 | after any edit of a settled cluster the pass that sees it succeeds, and every later one over that specification succeeds if and only if no kept pool has grown beyond the pods that were there |
| OnePass.EnlargedPoolNeverRecovers | controllers/minio_controller.go:147-210 | from nothing: once any pool of a built cluster is enlarged, by any number of servers, one pass succeeds and no later one over that specification does |
| Convergence.MissingPodsStayMissing | controllers/minio_controller.go:108-125 | once the revision records the specification, no pass of any run over it creates a pod, whatever fails |
| Convergence.MissingPodNeverHeals | controllers/minio_controller.go:150-191 | once the specification is recorded, a later pass in which every call succeeds succeeds if and only if no pod was missing then, however many passes went before |
| Failures.OneFailedCallLosesPool | controllers/minio_controller.go:108-191 | for every cluster built from nothing with claims, every pool then added, and a pass of which only the first pod creation fails: the pool is recorded, its pod is absent, and no later run over that specification creates it or succeeds |
| Failures.FailedCreation | controllers/minio_controller.go:181-191 | where services and claims are in place, a pass whose first pod creation fails has recorded the specification and created nothing |
| Convergence.PoolDiff | controllers/minio_controller.go:150-174 | added names are exactly new minus old; updated names are exactly the old names some new pool of that name asks to update |
| Convergence.ObjectsOnlyGrow | controllers/minio_controller.go:101-210 | over every run with any faults, interference and edits no service, claim or pod is removed, no claim changes, and no fourth service appears |
| Convergence.RemovedPoolUntouched | controllers/minio_controller.go:162-174 | over every run whose specifications no longer name a pool, its pods are never created, overwritten or removed |
| Convergence.UnaskedPoolUntouched | utils/pod.go:16-36 | a recorded pool none of whose counterparts asks for an update keeps its pods as they are, under any interference and faults |
| Convergence.PutOverReaches | controllers/minio_controller.go:199-210 | overwriting in sequence gets through exactly when all pods exist, and leaves all of them as given exactly when moreover no two contradict each other |
| Convergence.AllPodsDistinct | utils/pod.go:90 | with distinct pool names all pods of a MinIO have distinct names and their number is the sum of the server counts |
| Convergence.AddPoolsMember | controllers/minio_controller.go:150-161 | a pool is added if and only if it is in the new list and no old pool has its name |
| Convergence.UpdatePoolsMember | controllers/minio_controller.go:162-174 | a pool is updated if and only if it is in the old list and some new pool of its name asks for it |
| Lifecycle.FromEmpty | controllers/minio_controller.go:101-210 | from an empty cluster one pass without failing calls stores exactly three services, the revision, the sum of servers pods, the sum of servers times volumes claims, each as specified, and leaves the cluster settled |
| Lifecycle.SettledPass | controllers/minio_controller.go:101-210 | a settled cluster is a fixpoint of a pass, whatever fails in it and although every pod is overwritten |
| Lifecycle.SettledForever | controllers/minio_controller.go:78-218 | a settled cluster stays as it is over every run without an edit of the specification |
| Lifecycle.AllClaimsDistinct | utils/pvc.go:20-38 | with distinct pool names and separable template names all claims of a MinIO have distinct names and the number expected |
| Closure.PassKeepsClosure | controllers/minio_controller.go:400-427 | a pass keeps every claim named by a pod stored, whatever fails, if the claims of added and recorded pools are stored |
| Closure.FirstPassCloses | controllers/minio_controller.go:406-425 | the first pass without failing calls ends with every claim a pod names stored, for any pools and any template names |
| Closure.ClosureLasts | controllers/minio_controller.go:400-427 | closure lasts over every run, with any faults and edits, as long as the pool list stays |
| Closure.PassClosesIff | controllers/minio_controller.go:147-210 | over a closed cluster, a pass without failing calls ends closed if and only if the claims of the pods it has written are stored, wherever it stops |
| Closure.SuccessfulPassClosesIff | controllers/minio_controller.go:147-210 | over a closed cluster, a pass that gets through ends closed if and only if the claims of all added pools, and of all updated ones as they were recorded, are among those stored before it or, if the MinIO had none, those of the whole specification |
| Closure.LaterPoolsCloseIff | controllers/minio_controller.go:406-425 | for every cluster as built from nothing by one pass and every edit, with distinct pool names and separable template names: the pass that sees the edit ends closed if and only if the first specification asked for no claims or the added pools ask for none |
| Closure.LaterEditClosesIff | controllers/minio_controller.go:400-427 | the pass after that one, which rebuilds kept pools from their new form, ends closed, if no pool was enlarged, if and only if the first specification asked for no claims or every new pool that needs some has an old one of its name with the same template and no fewer servers and volumes |
| Closure.SecondPassClosesIff | controllers/minio_controller.go:400-427 | the same over any settled and closed cluster: if every kept pool has the pods it asks for, two passes after an edit end closed if and only if all claims of the new pools are stored or were created because the MinIO had none |
| Closure.RaisedVolumesBreakClosure | controllers/minio_controller.go:406-425 | from nothing: one volume more for any pool with a server and a volume; the pass that sees it ends closed and the next one does not, though no call fails |
| Closure.BuiltFromNothing | controllers/minio_controller.go:101-210 | one pass without failing calls over an empty cluster leaves it settled, closed, with claims exactly if some are asked for, and with no pods and claims but those of the specification |
| Closure.ReadyIffCovered | utils/pvc.go:20-38 | the claims of such a cluster serve other pools exactly as far as old pools of the same name and template with at least as many servers and volumes cover them |
| Failures.AddingPoolBreaksClosure | controllers/minio_controller.go:406-425 | a run in which nothing fails, pool `b` added to pool `a`, that ends with a stored pod whose claim is not stored |
| Layout.NewPodsForMinIOPool | utils/pod.go:39-114 | the nested loops produce, for any counts, one pod per server, each with every field as the inputs say, and equal to the layout the lemmas speak of |
| Layout.NewPersistentVolumeClaimForMinIOPool | utils/pvc.go:14-41 | the nested loops produce, for any counts, one claim per server and volume, in that order, each with name, labels, resources and storage class as the inputs say |
| Layout.PodForIff | utils/pod.go:85-155 | a pod is the one of the layout if and only if its fields are these: name and host name, subdomain, both labels, image and pull policy, console port by certificate, resources, probes, lifecycle, pool fields, account, affinity, tolerations, volumes, and mount paths for one volume and for several |
| Layout.ClaimForIff | utils/pvc.go:20-38 | the same for a claim: name, both labels, resources, storage class |
| Layout.PodsReferToGeneratedClaims | utils/pod.go:48-59 | the claims the pods of a pool refer to, in pod order, are exactly the generated claims, in order |
| Layout.ClaimAt | utils/pvc.go:20-38 | element i*V+j of the generated claims is the claim of server i, volume j |
| Layout.ClaimMountedOnce | utils/pod.go:48-59 | each claim of a pool is referred to by exactly one pod through exactly one volume |
| Layout.MountsMatchVolumes | utils/pod.go:69-83 | a pod's mounts name its volumes in order, with no volume name or mount path used twice |
| Layout.PodNameInjective | utils/pod.go:90 | a pod name determines its pool name and index, whatever dashes the pool name has |
| Layout.ClaimNamesUniqueIff | utils/pvc.go:22-23 | pool, server, template and volume are recoverable from claim names if and only if neither template name ends in a dash-separated index followed by the other, for every pair of template names |
| Layout.SeparableWhen | utils/pvc.go:22-23 | equal or dash-free template names meet that condition |
| Layout.DashesCollide | utils/pvc.go:22-23 | two different claims, of templates `b-1-c` and `c`, that share a name in every MinIO |
| Decimal.AtoiItoa | utils/pvc.go:23 | a printed index reads back as itself |
| Decimal.IndexedNameInjective | utils/pod.go:54 | a name followed by a dash and an index determines both |
| Services.MinioSvcMatchesSpecification | utils/service.go:129-161 | the early-return comparison says yes if and only if labels and annotations are contained, ports agree in order on name, number and target, the type is the same, and each selector entry is present and equal or not asked for; with an error exactly when it says no |
| Services.FindMissing | utils/service.go:130-139 | the loop over required labels finds a missing or different one, in whatever order it runs |
| Services.OverwrittenMatches | controllers/minio_controller.go:278-282 | an overwritten service matches what it was compared with, whatever was stored and whatever the server adds |
| Services.AdmissionKeepsMatch | utils/service.go:129-161 | what a server adds never undoes a match and never hides a difference in ports or type |
| Services.HeadlessNeverMatchesConsole | utils/service.go:100-126 | a headless service as built never passes the comparison it is given |
| Contents.CheckedServices | utils/service.go:17-96 | three stored services pass their checks if and only if they are these: the MinIO one on port 443 or 80 by certificate and labelled, the other two on 9090, each open to the outside exactly when exposed, selecting the pods of this MinIO |
| Contents.CreatedServices | utils/service.go:17-126 | what each kind is created as, the headless one with the server port, which is what stays when the check that follows cannot overwrite it |
| Contents.PassLeavesServices | controllers/minio_controller.go:127-140 | after every pass without failing calls these three are stored, and no others but those that were there |
| Contents.HeadlessBecomesOrdinary | controllers/minio_controller.go:349-397 | the headless service is created with the server port, no cluster address and answers for pods not ready; the check after it takes all three away |
| Stages.ServiceStore | controllers/minio_controller.go:245-295 | from any stored service or none, a check that succeeds leaves a matching one, repeating it writes nothing, and no other service is touched |
| Stages.RevisionProceeds | controllers/minio_controller.go:101-125 | under interference and faults the recorded revision is the old one, absent or the current specification, and the current one on success |
| Stages.ClaimsProceed | controllers/minio_controller.go:400-427 | claims are only added, only when the MinIO has none, and all of them when no call fails |
| Contents.ClaimsOneByOne | controllers/minio_controller.go:419-424 | creating claims goes on after a failure: every claim whose own call is answered is stored, existing ones stay, nothing else is added |
| Contents.ForeignClaimsDoNotCount | controllers/minio_controller.go:400-425 | claims that carry other names do not count: a pass without failing calls stores all its own |
| Contents.OneClaimIsEnough | controllers/minio_controller.go:400-425 | a single claim that carries the name of the MinIO keeps every pass from creating any |
| Stages.CreatePodsProceeds | controllers/minio_controller.go:181-192 | creation stops at the first pod that exists; what it stores and whether it succeeds is exact when no call fails |
| Stages.UpdatePodsProceeds | controllers/minio_controller.go:199-210 | overwriting stops at the first pod that is missing; what it stores and whether it succeeds is exact when no call fails |
| HealthRuns.HealthAlternates | controllers/minio_health_checker_controller.go:36-55 | over every number of runs, with any check results and any start value, the stored health alternates between Unknown and the latest result when the deployment is complete and no-op writes keep the version; otherwise no result is ever stored |
| HealthRuns.OneHealthRun | controllers/minio_health_checker_controller.go:28-63 | with no other writer a run stores the check result exactly when the stored health was Unknown, the deployment is complete and no-op writes keep the version |
| Answers.HealthResult | controllers/minio_health_checker_controller.go:28-63 | under any interference and faults a run fails if and only if a call of it failed or the object is gone, and asks to run again on a failed call and otherwise unless the deployment it read is complete and the check was passed |
| HealthRuns.HealthRunOwnsHealth | controllers/minio_health_checker_controller.go:28-63 | under any interference and faults a run changes the store at most once, and ends with every field but the health status as the other writes during the run have left it |
| StatusRuns.AggregatePools | controllers/minio_status_controller.go:104-146 | per pool its name, wanted servers, the status of the last listed pod, the exact number of running pods and the pods in order |
| StatusRuns.AggregateDeploy | controllers/minio_status_controller.go:149-157 | the loop keeps the last pool status that is neither complete nor unset |
| StatusRuns.PoolStatusIff | controllers/minio_status_controller.go:117-144 | a pool status is the one computed if and only if its name, wanted servers, number of running pods, listed pods and status by the last pod are these |
| StatusRuns.DeployCompletedIff | controllers/minio_status_controller.go:104-157 | the deployment is Completed if and only if every pool lists no pods or a running one last |
| StatusRuns.DeployOtherwise | controllers/minio_status_controller.go:149-157 | otherwise the last pool that is not so decides between Running and Failed |
| StatusRuns.CompletedVersusRunning | controllers/minio_status_controller.go:117-146 | all pods run if and only if every pool's count equals its number of pods, and that implies Completed |
| StatusRuns.CompletedWithFailedPod | controllers/minio_status_controller.go:127-134 | a Completed deployment with a failed pod |
| StatusRuns.StatusRunOwnsObservation | controllers/minio_status_controller.go:33-168 | under any interference and faults a run changes the store at most once, and ends with message and health status as the other writes during the run have left them |
| Answers.StatusResult | controllers/minio_status_controller.go:33-168 | under any interference and faults a run fails if and only if a call of it failed or the object is gone, and asks to run again on a failed call and otherwise while some pool lists pods but not a running one last |
| StatusRuns.StatusRunCalls | controllers/minio_status_controller.go:35-161 | one read, one listing each of claims and services, one of pods for each pool, and one write: so many calls and no more |
| StatusRuns.ObservationStored | controllers/minio_status_controller.go:157-165 | with no other writer a run that succeeds stores the claims, the service addresses, per pool what was listed, and the deploy status that follows, leaves message and health alone, and asks to run again unless Completed |
| Config.ParseRawConfiguration | utils/utils.go:79-106 | the scanner loop computes the parse of the text, a line over the limit ending it, and an absent text gives an empty map |
| Config.SetCredential | utils/utils.go:93-98 | the assignments of one line set its key and, for the four credential keys, the shared one |
| Config.LastLineWins | utils/utils.go:84-98 | for every text each key holds the value of the last scanned line that gives it one, and there are no other keys |
| Config.WhoGives | utils/utils.go:93-98 | which lines give a key a value: three keys each for accesskey and secretkey, its own lines for any other |
| Config.ParseAppend | utils/utils.go:79-106 | appending to newline-terminated text overrides its result with that of the appendix, unless a line before was over the limit |
| Config.IdleLine | utils/utils.go:41-60 | blank, comment and malformed lines can be put in or taken out anywhere |
| Config.PlainLineBinds | utils/utils.go:41-76 | `KEY=VALUE` amid white space, its key of the stated shape and beginning neither with `#` nor with `export`, binds the key to the value with matching quotes taken off |
| Config.ExportedLineBinds | utils/utils.go:56-75 | the same behind `export`, with or without white space after it, for any key of the stated shape |
| Config.UnquoteMeans | utils/utils.go:64-70 | the bound value is the inside of two equal quotes, and otherwise the value as it stands, a single quote character and unequal quotes included |
| Config.SkippedLine | utils/utils.go:42-53 | blank lines and lines whose first visible character is `#` are skipped |
| Config.MalformedLine | utils/utils.go:56-60 | any other line without an equals sign is malformed |
| Config.ReadIgnoresCR | utils/utils.go:42-84 | a carriage return at the end of a line changes nothing |
| Config.PlainLineSets | utils/utils.go:84-98 | such a line at the end of any terminated text within the limit sets its key and, for the four credential keys, the shared one |
| Config.RootUserLine | utils/utils.go:93-95 | in particular `MINIO_ROOT_USER=v`, unquoted, sets that key and accesskey to v |
| Config.LongLineHides | utils/utils.go:82-104 | a line of 65536 characters or more hides itself and all that follows |
| Config.PrintedLineReads | utils/utils.go:41-76 | `export KEY="VALUE"` reads back as the entry, whatever the value, if and only if the key has no equals sign and no leading white space |
| Config.RoundTrip | utils/utils.go:79-106 | printing any list of such settings and parsing the text has the effect of the settings, in order |
| Config.PlainSettingsReturn | utils/utils.go:79-106 | settings with distinct keys that are not credentials come back exactly, and nothing else |
| Config.ReprintFixpoint | utils/utils.go:79-106 | printing any parsed configuration, in any order with accesskey and secretkey last, and parsing it again gives the same configuration |
| Bindings.LastGivenAt | utils/utils.go:83-98 | what "last" means: the position of the giving line, after which no line gives the key a value |
| Controllers.UpdateStatusWithRetry | controllers/minio_controller.go:221-242 | the recursive write over a mutated copy does what the specification of the retry says, whose success, store and attempts are given above, and leaves the caller's object alone |
| Controllers.Cluster.UpdateMinIOStatus | controllers/minio_controller.go:230 | a status update is refused on a fault, conflicts on another version, and otherwise stores the status and nothing else |
| Controllers.MinIOReconciler.Reconcile | controllers/minio_controller.go:78-218 | the pass, updating its object and the cluster in place, skipping an object that is not live, ends in the cluster and result that the pass function gives, to which the lemmas above apply |
| Controllers.MinIOReconciler.RecordRevision | controllers/minio_controller.go:101-125 | reads the revision, and creates or replaces it when it differs, with every failure branch |
| Controllers.MinIOReconciler.CheckService | controllers/minio_controller.go:245-397 | creates a missing service, then overwrites one that does not match, with every status report on the way |
| Controllers.MinIOReconciler.CheckPVC | controllers/minio_controller.go:400-427 | lists the claims and creates all when there are none, passing over those that fail |
| Controllers.MinIOReconciler.DiffAdded | controllers/minio_controller.go:150-161 | the nested loops with their early exit compute the added pools |
| Controllers.MinIOReconciler.DiffUpdated | controllers/minio_controller.go:162-174 | the nested loops compute the recorded pools that some new pool of the same name asks to update, as `Contents.AskedIff` spells out |
| Controllers.MinIOReconciler.CreatePods | controllers/minio_controller.go:181-192 | creates pods in turn; the first failure is reported and ends the pass |
| Controllers.MinIOReconciler.UpdatePods | controllers/minio_controller.go:199-210 | overwrites pods in turn; the first failure is reported and ends the pass |
| Controllers.MinIOReconciler.ReconcilePods | controllers/minio_controller.go:147-217 | diff, creations, updates and the final status, in that order |
| Controllers.MinIOHealthCheckerReconciler.Reconcile | controllers/minio_health_checker_controller.go:28-63 | the run with its two writes of one object ends in the store and result that the health-run function gives |
| Controllers.MinIOStatusReconciler.Reconcile | controllers/minio_status_controller.go:33-168 | the run with its listings, aggregation loops and one write ends in the store and result that the status-run function gives |

## Left out

- Protocol.NoFieldReverted: a reconciler's assignment may change its own fields in any way, which covers what the three do and more; that their runs are among these is proved in `Traces` and `PassTrace`.
- Controllers.MinIOReconciler.CheckService: the three checks at lines 245-397 differ in builder and messages only and are one method with a parameter.
- Controllers.UpdateStatusWithRetry: the other two reconcilers' copies have no retry parameter; they are this method with `retry` true, which is also what every call passes.
- Layout.NewPodsForMinIOPool: container arguments, environment, fixed ports, the owner reference and the namespace are the same for every pod of a MinIO and are not carried.
- Services.MinioSvcMatchesSpecification: the selector comparison comes from a library and is written as a predicate instead of a loop.
- Config.ParseRawConfiguration: text is a sequence of characters, not bytes, so the scanner's limit counts characters and invalid encodings do not occur; reading lines is part of the loop.
- The API server: reads are fresh and replace the whole in-memory object, a call that fails has had no effect, pods and cluster addresses are mutable, and defaulting is limited to what `Services.Admission` adds.
- The MinIO object is absent or being deleted from the start of a pass or not at all; garbage collection of owned objects is not modelled.
- Services, claims and pods change only through the reconciler; other writers change the MinIO object only, and other MinIO objects of the namespace own none of the names considered.
- A first read that fails with something other than "not found" leaves a nameless object in the code, whose writes the server refuses; the pass ends there in the model.
- Encoding the recorded specification: the revision holds the specification itself, reading it back is the identity, and no difference between absent and empty lists survives.
- The bodies of errors: "already exists" and "not found" stand for the server's full texts.
- Probes, affinity, tolerations, resources, security contexts and the rest of the specification are compared and copied as wholes.
- Claim status entries, service addresses and the node address are inputs of a status run: text formatting with nothing to prove.
- The health probe is a yes or no; its transport, credentials and the wait of one second are left out.
- Events, logs, requeue timing, generated code, custom-resource manifests and the wiring in `main.go`, which registers the main reconciler only.
