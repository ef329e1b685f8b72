# Verified model of the LVM CSI driver

The driver's controller carries out every LVM operation in a short-lived helper pod on the node that owns the
volume group. Its operations have to survive retries, timeouts, cancelled calls and crashes. This project models
the parts on which that depends, and proves what they promise:

| files | what they model |
|---|---|
| `HelperPods`, `HelperPodFacts` | the pod a request becomes, the volume groups read back from it, the reuse test, deadlines |
| `HelperSystem` | the helper protocol as a step system: calls, admission lock, pod store, API failures, restarts, the environment |
| `HelperLimit`, `HelperOwnership`, `HelperCommands`, `HelperProgress` | the invariants and run theorems of that step system |
| `HelperController` | `runHelper` and all it calls as imperative code; each method is proved to be a path of the step system |
| `LvmTable` | the table of logical volumes and what each LVM command makes of it, with failures and partial effects |
| `LvmSpec`, `LvmSnapshotSpec`, `LvmRuns` | what create, delete, snapshot and extend promise, and what follows over sequences of calls of every kind |
| `LvmBackend` | those operations as imperative code over the table, proved against the promises |
| `Provisioner` | the program in the helper pod: its command line read back into a job, and the job done on the volumes |
| `HelperEffects` | the protocol and the volumes together: what a successful call knows to have been done |
| `Filesystem`, `MountOptions` | probing, formatting and growing filesystems; the normal form of mount options |
| `SnapshotRecords`, `SnapshotSystem`, `SnapshotController`, `SnapshotHypotheses` | location records: encoding, the step system with crashes, the calls as imperative code, and why each hypothesis is needed |
| `VolumeMetadata` | node selection, and the round trip from `CreateVolume` to what is read back from the PV |
| `StorageClassWebhook` | the StorageClass validator, and the uniqueness it keeps over runs and does not keep |
| `Wrappers`, `Text`, `DriverNames` | option and result types, Go's string helpers, names that components share |

In the step systems a *run* is any sequence of labels: requests of any number of calls interleaved with each other
and with the environment. An API request can be answered, fail, or take effect although its caller gets an error.
The imperative classes take a script of *turns* that says what others do between two requests and how a request
ends. Every theorem is for all scripts, and the predicates `Calm` and `NoFaults` single out the scripts without
interference when a contract also says what then happens exactly. A ghost trace or log ties each class to its step
system or to the commands it issued.

## Hypotheses

Each is a predicate or a choice of labels in the model; the claims named need it.

- **Admission** (`HelperLimit`, `HelperSystem`): one controller process at a time, a fixed limit, and only the driver
  creates pods that count as helpers (`StepEnvironment`: the environment's pods are not helpers); nobody edits a
  pod's labels, annotations or spec. Terminal phases are final. A create that failed never takes effect later; one
  whose reply was lost took effect at once. A restart drops all calls.
- **One call per name** (`Exclusive`): at most one call is in flight for a volume or snapshot name, as the
  "Concurrency" section of the Container Storage Interface specification v1.9 lets the driver expect. Needed for
  what success means and for which pods are deleted, because waiting and cleanup use the pod's name only.
  `SecondCallLosesRunningPod` is a run without it in which a running helper is deleted. The limit does not need it.
- **Volumes** (`LvmBackend`, `LvmRuns`, `HelperEffects`): helpers on one volume group run one after another, so that an
  operation can be placed at one moment, in `HelperEffects` that at which its program exits. A timed-out command no
  longer runs. A command that fails in another way has no effect. Only pool creation has a half-way state, a linear
  LV. A helper may be killed at any moment, also in the middle of a command (`CutOff`). `NeverIncomplete` needs that
  none is killed while it prepares the group's pool, that rollbacks succeed, and that nobody uses the pool's name;
  without any one of these a pool can stay half-made (`CutOffLeavesHalf`, `FailedRollbackLeavesHalf`,
  `VolumeTakesPoolName`).
- **Snapshot records** (`Fair`): no create of a handle is in flight together with its delete (`NoOverlap`); no delete
  begins while a create helper left behind may still take its snapshot (`NoneLeftBehind`); a PV or annotation that
  names a place names the true one (`Truthful`); the name of a forgotten record is no other handle's (`OwnName`).
  Each is needed: `SnapshotHypotheses` has, for each, a run that keeps the three others and loses a record. One call
  at a time is therefore not enough when a create gives up on its helper (`LeftHelperLosesRecord`). Reading and
  writing records need no injective naming.
- **Formatting** (`Device.GetFilesystemTypeFromWipefs`): a successful wipefs report lists the device's signatures.
- **Webhook** (`Admissible`): creates are serialised, and a class's parameters and provisioner cannot be changed.
  `ConcurrentCreatesDisagree` shows why the first is needed.
- **Publishing** (`Carries`): the external provisioner copies the volume context into the PV's attributes and turns the
  topology into terms of `In` expressions.

## Where the code does less than one might expect

- A pod's deadline exceeds the longest of its commands' timeouts for every helper that prepares no thin pool. A dm-thin
  create needs, and validation does not demand, a thin-pool pod timeout above the command timeout
  (`CreateDeadlineMayBeShort`). A clone that creates a dm-thin volume to copy into can create a pool under the ordinary
  deadline; it needs a pod timeout above the thin-pool creation timeout, which not even the defaults have
  (`CloneDeadlineMayBeShort`). Restoring a dm-thin snapshot within its group prepares no pool and needs neither.
  `DeadlineCovers` and `ConfigCovers` say exactly when the property holds. It compares the deadline with single
  commands, not with the sum of several.
- The reuse test ignores an empty argument of the new request: it then joins the pod of a request with another word in
  that place (`EmptyArgumentReusesOther`). Without an empty argument, and only then, reuse is safe (`ReuseExact`). The
  controller's own validation excludes empty arguments, so its requests are safe (`ValidatedReusesOnlyItself`).
- If the rollback of a half-made thin pool fails, or its helper is killed, every later dm-thin create of a new name in
  the group fails until somebody removes it; so does every one over an inactive or unhealthy pool
  (`UnreadyPoolBlocks`).
- Nothing reserves the pool's name: a striped volume can be created under it and blocks the group in the same way
  (`VolumeTakesPoolName`). A snapshot helper can take it only if it begins like a snapshot LV's (`SnapshotNamesPool`).
- The StorageClass webhook compares classes by their first topology node only. A class that names a further node can
  be admitted beside a class of another type on that node (`SecondNodeEscapes`). A class agrees with every
  one-node class accepted beside it if and only if it names no node but its first (`OneNodeExact`), and among such
  classes all agree (`OneTypePerNode`).
- Deleting the origin of a thick snapshot takes the snapshot with it; `DeleteKeeps` says exactly what a delete leaves.
- Forgetting a snapshot record goes by the ConfigMap's name and does not check whose record it is.

## Model

| member | source | states |
|---|---|---|
| `HelperPods.AddPrefixed` | pkg/lvm/helper_pod.go:418-423 | an argument adds a group exactly when it is one of the two flags, an equals sign and a non-empty rest |
| `HelperPods.AddVGArgs` | pkg/lvm/helper_pod.go:411-425 | adds exactly the groups that some argument names, by a bare flag and its successor or by a flag with an equals sign |
| `HelperPods.HelperVGs` | pkg/lvm/helper_pod.go:394-409 | the strictly sorted list of exactly the pod's groups: annotation and arguments of every container |
| `Text.SortedUnique` | pkg/lvm/helper_pod.go:404-408 | that list is one list, in whatever order the keys of the map come |
| `Text.LessMeans` | pkg/lvm/helper_pod.go:407-407 | the order of the groups: less at the first differing character, or a proper beginning |
| `HelperPods.HelperUsesVG` | pkg/lvm/helper_pod.go:385-392 | true exactly for the pod's groups |
| `HelperPods.CountActiveHelpers` | pkg/lvm/helper_pod.go:352-364 | the number of listed unfinished helpers on the node, other than the pod itself, that use the group |
| `HelperPodFacts.BaseMeans` | pkg/lvm/helper_pod.go:378-380 | a path ends in a program exactly if its name stands there alone, after a slash or at the start, with nothing but slashes behind it |
| `HelperPodFacts.HelperMeans` | pkg/lvm/helper_pod.go:370-383 | a pod is a helper exactly by its label or by a container that runs the provisioner, wherever that is installed |
| `HelperPodFacts.ArgGroupsMean` | pkg/lvm/helper_pod.go:411-425 | arguments name a group exactly as "--vgname G", "--srcvgname G", "--vgname=G" or "--srcvgname=G" with a non-empty G |
| `HelperLimit.UsersMean` | pkg/lvm/helper_pod.go:352-368 | what counts against a group: helpers of the node that name it and have neither succeeded nor failed |
| `HelperPodFacts.PodNameInjective` | pkg/lvm/helper_pod.go:616-626 | equal pod names come from the same resource, action and name |
| `HelperPodFacts.PodNames` | pkg/lvm/helper_pod.go:616-627 | the names of the five kinds of helper pod |
| `HelperPodFacts.GroupsCovered` | pkg/lvm/helper_pod.go:114-211 | whatever else the arguments hold, every non-empty requested group, the source's included, is read back from the built pod |
| `HelperPodFacts.GroupsExact` | pkg/lvm/helper_pod.go:165-211 | with valid group names and no other flag-shaped argument, the groups read back are exactly the action's and its source's |
| `HelperPodFacts.ReuseRunsSameCommand` | pkg/lvm/helper_pod.go:295-315 | if the stored pod of one request passes the reuse test for another of the same pod name, node and number of arguments agree, each argument of the new request agrees unless it is empty, and so does the image if one is set; without an empty argument the command lines are equal |
| `HelperPodFacts.ReuseMeans` | pkg/lvm/helper_pod.go:310-314 | for a request without an empty argument, the pod of another is reused if and only if name, arguments, node, host path, timeouts and deadline agree, and image and pull policy where the request sets them |
| `HelperPodFacts.EmptyArgumentReusesOther` | pkg/lvm/helper_pod.go:310-314 | for every request with an empty argument, which validation excludes, a request with other arguments whose pod passes its reuse test |
| `HelperPodFacts.ReuseExact` | pkg/lvm/helper_pod.go:310-314 | whichever pod it finds, reuse preserves the arguments of a request if and only if none of them is empty |
| `HelperPodFacts.ValidatedReusesOnlyItself` | pkg/lvm/validation.go:32-47 | a request that passed the controller's validation has no empty argument, so every pod it joins has its very arguments |
| `HelperPodFacts.StoredDerives` | vendor/k8s.io/apimachinery/third_party/forked/golang/reflect/deep_equal.go:292-434 | a pod passes the reuse test against its own stored form, with DNS policy and scheduler filled in |
| `HelperPodFacts.StillDerives` | vendor/k8s.io/apimachinery/third_party/forked/golang/reflect/deep_equal.go:292-434 | a pod that passes goes on passing, whatever unset fields are later filled in or list entries appended |
| `HelperPodFacts.DurationSecondsIsCeiling` | pkg/lvm/helper_pod.go:668-674 | the whole seconds of a positive duration are its ceiling |
| `HelperPodFacts.DeadlineExceedsTimeout` | pkg/lvm/helper_config.go:52-77 | under a valid configuration the deadline exceeds the thin-pool creation timeout for a dm-thin create, and the command timeout for every other helper |
| `HelperPodFacts.DeadlineCovers` | pkg/lvm/helper_pod.go:661-674 | the deadline exceeds the longest timeout among the helper's commands if and only if, when it may prepare a pool, the rounded thin-pool pod timeout exceeds the command timeout for a create, or the rounded pod timeout exceeds the thin-pool creation timeout for a clone that copies |
| `HelperPodFacts.ConfigCovers` | pkg/lvm/helper_config.go:52-77 | under a valid configuration every helper outlives each of its commands if and only if both of these bounds hold |
| `HelperPodFacts.CloneDeadlineMayBeShort` | pkg/lvm/helper_config.go:25-50 | the default configuration and a valid clone from a striped volume to a dm-thin one in another group, whose deadline is below the thin-pool creation timeout |
| `HelperPodFacts.CreateDeadlineMayBeShort` | pkg/lvm/helper_config.go:52-77 | a valid configuration and a dm-thin create whose deadline is below the command timeout |
| `HelperLimit.CountLeavesRoom` | pkg/lvm/helper_pod.go:333-348 | a count below the limit on a stale list that still shows every active helper leaves room in the present store, in every group the pod needs |
| `HelperLimit.FreshListExact` | pkg/lvm/helper_pod.go:333-348 | on a list that is not stale, admission passes exactly when every needed group has room |
| `HelperLimit.CountExact` | pkg/lvm/helper_pod.go:352-364 | on a list that is not stale the count is exactly the number of other helpers using the group |
| `HelperLimit.CoversShrinks` | pkg/lvm/helper_pod.go:326-333 | as long as nobody creates a helper, a list goes on showing every active helper: counts can only fall |
| `HelperLimit.LockStep` | pkg/lvm/helper_pod.go:249-250 | the lock is held by exactly the calls inside ensureHelper, at most one |
| `HelperLimit.InvStep` | pkg/lvm/helper_pod.go:243-276 | every step of any call or the environment keeps the limit, the lock discipline and what each call knows from its list |
| `HelperLimit.ActiveHelpersBounded` | pkg/lvm/helper_pod.go:317-364 | in every reachable state each node and volume group is used by at most MaxActive unfinished helpers, through restarts, lost replies and any interleaving |
| `HelperCommands.RequestsBounded` | pkg/lvm/helper_pod.go:165-211 | the same limit in terms of requests: at most MaxActive unfinished helpers touch a group as their own or as their source's, and each was made by some request |
| `HelperCommands.DerivedIsHelper` | pkg/lvm/helper_pod.go:370-383 | a pod that passes the reuse test for a request is recognised as a helper |
| `HelperCommands.BuiltRun` | pkg/lvm/helper_pod.go:608-636 | over any run every helper in the store, and every pod a call has seen, is the stored form of some request |
| `HelperCommands.SuccessRanTheCommand` | pkg/lvm/helper_pod.go:213-241 | a call that returned success saw a pod succeed on its own node that ran its own timeouts and arguments, except in the place of an empty argument; a request without an empty one saw exactly its own command line |
| `HelperCommands.ValidatedRanItsCommand` | pkg/lvm/helper_pod.go:213-241 | for a validated request, success means a pod succeeded on its node that ran exactly its command line |
| `HelperOwnership.OwnedRun` | pkg/lvm/helper_pod.go:213-315 | over any run with one call per name: a waiting call's pod, if there, matches it; a call about to delete faces a finished or terminating pod |
| `HelperOwnership.SuccessSawMatchingPod` | pkg/lvm/helper_pod.go:213-241 | success means a pod of that name was seen Succeeded and agrees with every field the caller set, whatever stale or left-behind pods there were |
| `HelperOwnership.OnlyFinishedPodsDeleted` | pkg/lvm/helper_pod.go:427-467 | whatever pod the driver asks to delete has finished or was already terminating |
| `HelperOwnership.SecondCallLosesRunningPod` | pkg/lvm/helper_pod.go:239-239 | without one call per name: a run in which the cleanup of one call deletes the running helper of another |
| `HelperProgress.RefusalStep` | pkg/lvm/helper_pod.go:427-467 | a refusal that deletes a pod strictly lowers the potential: mismatched 2, terminating 1, absent or joinable 0 |
| `HelperProgress.PotentialStep` | pkg/lvm/helper_pod.go:295-315 | no step raises the potential, except outside deletions or creations under the name, which are counted as credits |
| `HelperProgress.RefusalsPaid` | pkg/lvm/helper_pod.go:295-315 | over any run of retries, potential left plus refusals is at most the initial potential plus credits |
| `HelperProgress.AtMostTwoRefusals` | pkg/lvm/helper_pod.go:427-467 | whatever pod holds the name, at most two calls are refused for deleting it, plus one per outside credit; none without a pod |
| `HelperProgress.RefusalKinds` | pkg/lvm/helper_pod.go:243-350 | with answered requests, every other refusal is the limit, a missing limit or group, a mismatched running pod, or a pod that vanished after a collision |
| `HelperController.CheckGroups` | pkg/lvm/helper_pod.go:334-348 | passes exactly when the list shows fewer active helpers than the limit in every one of the groups |
| `HelperController.Cluster.AdmitListed` | pkg/lvm/helper_pod.go:330-349 | no group is Internal, a full group is Aborted, otherwise admitted |
| `HelperController.Cluster.AdmitHelper` | pkg/lvm/helper_pod.go:317-350 | is a path of the protocol; undisturbed it refuses exactly when the limit is unset, the pod has no group, or some group is full |
| `HelperController.Cluster.ForceDeleteHelper` | pkg/lvm/helper_pod.go:427-442 | always Unavailable; undisturbed exactly the named pod is gone |
| `HelperController.Cluster.RetireHelper` | pkg/lvm/helper_pod.go:444-467 | always Unavailable; undisturbed the pod goes exactly if it was shown as Succeeded or Failed |
| `HelperController.Cluster.UseExistingHelper` | pkg/lvm/helper_pod.go:295-315 | joins exactly a pod that is not terminating and passes the reuse test; otherwise Unavailable |
| `HelperController.Cluster.ReuseHelper` | pkg/lvm/helper_pod.go:278-293 | after a collision, as a path of the protocol: joins exactly a joinable pod, otherwise clears or refuses it, or reports it gone |
| `HelperController.Cluster.CreateHelper` | pkg/lvm/helper_pod.go:268-275 | a create whose name was taken meanwhile goes on with the pod that took it; undisturbed it stores exactly the requested pod |
| `HelperController.Cluster.PostHelper` | pkg/lvm/helper_pod.go:268-274 | the create request: undisturbed and with a free name, the stored form of the pod is added and nothing else |
| `HelperController.Cluster.EnsureHelper` | pkg/lvm/helper_pod.go:243-276 | is a path of the protocol; undisturbed the store decides the answer and the new store exactly: join, force out a terminating pod, dismiss a Succeeded or Failed one of another request, refuse, or create |
| `HelperController.Cluster.WaitForHelper` | pkg/lvm/helper_pod.go:473-536 | undisturbed and with time left: a Succeeded pod ends it at once without error, a Failed one with Internal, a missing one with Unavailable, and any other is polled until time is up; in every case it ends so |
| `HelperController.Cluster.RunHelper` | pkg/lvm/helper_pod.go:213-241 | a whole call: the limit holds at its end, success means a matching pod was seen to succeed; undisturbed a matching pod left behind by an earlier call is joined: success if it Succeeded, Internal if it Failed, a timeout if it goes on running |
| `HelperController.Cluster.RunLocked` | pkg/lvm/helper_pod.go:219-240 | ends the call; undisturbed a finished matching pod that was left behind decides the result |
| `HelperController.Cluster.DeleteHelper` | pkg/lvm/helper_pod.go:588-595 | the cleanup never changes what the call returns |
| `LvmTable.RemovedKeeps` | pkg/lvm/lvm.go:1031-1047 | removing a volume leaves all but it and its thick snapshots, and only clears the origin of its thin snapshots |
| `LvmTable.CommandWellFormed` | pkg/lvm/lvm.go:730-744 | no command, whatever its outcome, leaves dangling origins or pools |
| `LvmBackend.Node.ListLogicalVolumes` | pkg/lvm/lvm.go:872-897 | every volume once |
| `LvmBackend.Node.GetLogicalVolume` | pkg/lvm/lvm.go:832-843 | the volume of that group and name, or that there is none |
| `LvmBackend.Node.GetLogicalVolumeByName` | pkg/lvm/lvm.go:845-870 | the volume if it is the only one of that name on the node; otherwise that there is none, or that there are several |
| `LvmBackend.Node.ValidateThinPool` | pkg/lvm/lvm.go:1213-1236 | accepts only an active and healthy pool |
| `LvmBackend.Node.RollbackThinPoolCreate` | pkg/lvm/lvm.go:773-818 | removes at most a linear LV of the pool's name; success leaves no incomplete pool |
| `LvmBackend.Node.CreateThinPool` | pkg/lvm/lvm.go:730-762 | success leaves a ready pool; only a timeout with a failed rollback leaves an incomplete one; no other volume is touched |
| `LvmBackend.Node.PrepareThinPool` | pkg/lvm/lvm.go:700-728 | success means a pool complete, active and healthy; an incomplete or unhealthy one is refused untouched |
| `LvmBackend.Node.CreateLVS` | pkg/lvm/lvm.go:647-698 | success: a volume of the name stands, at least as large as asked and of a segment type of the type asked for, a new thin one in the group's pool, which was complete, active and healthy; an existing one is refused exactly if it is smaller or of another type. Meets CreateSpec over every table and outcome; makes a new volume only for a request that can be met and, without faults, exactly for those; every command it issues is a CreateEvent; answers an existing volume without a command; one stripe per physical volume, linear for one |
| `LvmBackend.Node.CreateNew` | pkg/lvm/lvm.go:670-697 | the same for a name that is free: pool, stripes, lvcreate |
| `LvmBackend.Node.CreateVolume` | pkg/lvm/lvm.go:670-697 | the final lvcreate: a new volume satisfies the request, a failure changes nothing, a timeout leaves nothing or a volume that satisfies it |
| `LvmSpec.PhasesCompose` | pkg/lvm/lvm.go:670-697 | preparing the pool and then creating the volume, each with every outcome, keeps the promise of a create |
| `LvmSpec.CreateRetry` | pkg/lvm/lvm.go:647-668 | after a success every repeat succeeds and changes nothing, unless volumes cannot be listed, linear single-stripe volumes included |
| `LvmSpec.TimedOutVolumeIsFound` | pkg/lvm/lvm.go:655-668 | a create that timed out after making its volume is completed by the next attempt, without a change |
| `LvmRuns.NeverIncomplete` | pkg/lvm/lvm.go:700-818 | over any sequence of creates, cut-off creates, snapshots, deletes and extensions in any group and with any outcome, no create meets an incomplete pool, unless a rollback failed, a helper was killed preparing the pool, or somebody asked for a volume or snapshot under the pool's name |
| `LvmRuns.CutOffGains` | pkg/lvm/lvm.go:647-818 | a create cut off in the middle of any of its commands leaves everything that was there, and at most the new volume and a pool |
| `LvmRuns.CutOffLeavesHalf` | pkg/lvm/lvm.go:730-744 | a helper killed in the middle of pool creation leaves half a pool |
| `LvmRuns.FailedRollbackLeavesHalf` | pkg/lvm/lvm.go:746-762 | so can a timeout whose rollback failed |
| `LvmRuns.VolumeTakesPoolName` | pkg/lvm/lvm.go:647-698 | a striped volume created under the pool's name makes a clean group unclean |
| `LvmRuns.SnapshotNamesPool` | pkg/lvm/lvm.go:1064-1070 | a snapshot helper's LV has the pool's name exactly if that begins with "lvm-" and the handle is the rest of it |
| `LvmRuns.VolumesOnlyGrow` | pkg/lvm/lvm.go:647-1108 | over any such sequence without deletes a volume stays as it is, except that it may grow |
| `LvmSpec.CreatesKeepVolumes` | pkg/lvm/lvm.go:647-818 | over any sequence of creates a volume that stands once stands unchanged ever after |
| `LvmSpec.UnreadyPoolBlocks` | pkg/lvm/lvm.go:717-727 | over a pool that is incomplete, inactive or unhealthy no dm-thin create of a new name succeeds |
| `LvmBackend.Node.RemoveLVSInVG` | pkg/lvm/lvm.go:1031-1047 | an absent volume is a success without a change; otherwise just what a removal removes |
| `LvmBackend.Node.GetThinPoolAndCounts` | pkg/lvm/lvm.go:1173-1211 | exactly the group's thin pools, each with the number of its thin volumes |
| `LvmBackend.Node.RemoveThinPool` | pkg/lvm/lvm.go:1137-1157 | removes the group's pool exactly when it is a pool without thin volumes |
| `LvmBackend.Node.DeleteLV` | cmd/provisioner/deletelv.go:39-67 | success means the volume and, for dm-thin, an emptied pool are gone; a failure leaves the start, the half-way or the final table; an empty flag is refused before anything is done, and without faults nothing else fails |
| `LvmSpec.PoolOnlyIfUsed` | cmd/provisioner/deletelv.go:59-64 | after a dm-thin delete the group's pool, if there, still holds thin volumes |
| `LvmSpec.DeleteIdempotent` | cmd/provisioner/deletelv.go:55-64 | repeating a delete changes nothing |
| `LvmSpec.DeleteResumes` | cmd/provisioner/deletelv.go:55-64 | a delete that failed half-way is completed by its repetition |
| `LvmSpec.DeleteKeeps` | cmd/provisioner/deletelv.go:55-64 | the frame of a delete: exactly the volume, its thick snapshots and an emptied pool go |
| `LvmSpec.CreateThenDelete` | cmd/provisioner/deletelv.go:55-64 | creating the first thin volume of a group and deleting it restores the table, pool included |
| `LvmSpec.CreateThenDeleteStriped` | pkg/lvm/lvm.go:1031-1047 | creating a striped volume and deleting it restores the table |
| `LvmBackend.Node.CreateSnapshot` | pkg/lvm/lvm.go:1049-1108 | meets SnapshotSpec over every table and outcome; an existing LV is answered without a command; without faults it succeeds exactly if the source is there and the snapshot stands already or can be taken |
| `LvmBackend.Node.IssueSnapshot` | pkg/lvm/lvm.go:1087-1107 | the final lvcreate: the new LV has the source as origin, a thin one the source's pool and size, a thick one at least the space asked for |
| `LvmBackend.Node.DeleteSnapshot` | pkg/lvm/lvm.go:1110-1131 | success means the LV of the handle is gone, and only what a removal removes |
| `LvmSnapshotSpec.SnapshotRetry` | pkg/lvm/lvm.go:1070-1086 | a snapshot once taken, even if its caller saw a timeout, is found by every repeat, which changes nothing |
| `LvmSnapshotSpec.OtherOriginRefused` | pkg/lvm/lvm.go:1070-1086 | an LV of that name with another origin is never accepted and never touched |
| `LvmSnapshotSpec.SnapshotThenDelete` | pkg/lvm/lvm.go:1049-1131 | deleting a snapshot restores the table from before it was taken, whatever the outcome of taking it |
| `LvmBackend.Node.EnsureLogicalVolumeSize` | pkg/lvm/lvm.go:964-981 | runs lvextend exactly if the LV is too small; success leaves it large enough |
| `LvmBackend.Node.ResizeFilesystem` | pkg/lvm/lvm.go:983-1009 | success means the filesystem fills its volume; after a failure it is as it was or has partly grown, and never smaller or beyond its volume; no other filesystem changes and nothing is formatted |
| `LvmBackend.Node.ExtendLVS` | pkg/lvm/lvm.go:945-962 | meets ExtendSpec over every table and outcome, with at most one lvextend; success on a filesystem means it fills a volume of at least the size asked for; filesystems never shrink and stay within their volumes; without faults it succeeds exactly for a unique name whose filesystem, if any, the probes find growable and whose tool succeeds |
| `LvmBackend.Node.ExtendVolume` | pkg/lvm/lvm.go:951-961 | the same for the volume that was found |
| `LvmSnapshotSpec.ExtendNeverShrinks` | pkg/lvm/lvm.go:845-981 | no volume shrinks or disappears; the one that changes has a name unique on the node and then at least the requested size |
| `LvmSnapshotSpec.NoSecondExtend` | pkg/lvm/lvm.go:945-981 | once the LV has its size, a retry after a failed filesystem resize runs no second lvextend |
| `Provisioner.CommandLineParsesBack` | pkg/lvm/helper_pod.go:114-211 | the program reads from a helper's command line exactly the job of the request that built it |
| `Provisioner.RunClone` | cmd/provisioner/clonelv.go:58-136 | the same for clones: a thin snapshot exactly for a "lvm-snapshot-" source of type dm-thin within its group, a new volume to copy into otherwise |
| `Provisioner.RunJob` | cmd/provisioner/createlv.go:43-73 | every verb: success leaves what was asked for, by the words of the command line (a "dm-thin" volume is thin, a "striped" one striped or linear, each large enough; a snapshot has its origin, pool or space; a deleted LV is gone, and the pool with its last thin volume); it needs the demanded flags and a table on which the job is possible, and without faults these suffice; only a job that creates a dm-thin volume ever creates a pool |
| `Provisioner.DoneGives` | cmd/provisioner/deletelv.go:39-67 | what the relation of a job done says of the volumes, written out |
| `Provisioner.PoolAfterDelete` | cmd/provisioner/deletelv.go:55-64 | after a delete the pool stands if and only if the delete was not dm-thin or a thin volume is left in it |
| `Provisioner.LimitsReadBack` | pkg/lvm/helper_pod.go:681-688 | the program gives up each command after the timeout that the controller was configured with for it |
| `Provisioner.NeededSuffices` | pkg/lvm/helper_pod.go:661-666 | no command of a request's job has a timeout above what the deadline theorems take it to need |
| `Provisioner.NeededIsReached` | pkg/lvm/lvm.go:730-744 | a request that may prepare a pool issues pool creation on every table without pool and volume |
| `HelperEffects.ShadowRuns` | pkg/lvm/helper_pod.go:213-276 | a run of protocol and volumes together is, seen from the protocol, one of its runs |
| `HelperEffects.WitnessedRun` | pkg/lvm/helper_pod.go:498-536 | over any run every helper that succeeded, and every success a call has seen, has an exit of its program that did the job on its command line |
| `HelperEffects.SuccessMeansDone` | pkg/lvm/helper_pod.go:143-163 | a call for a validated request that returned success: exactly its job was done on its node at some moment, whatever pods were joined, left behind or retired |
| `HelperEffects.DoneMeans` | cmd/provisioner/createlv.go:43-73 | at that moment the created or cloned volume stood, large enough and thin for "dm-thin", striped or linear for "striped"; the deleted one was gone; the snapshot stood with its origin, pool or space, or was gone |
| `Filesystem.Device.GetFilesystemTypeFromWipefs` | pkg/lvm/lvm.go:420-445 | reports blank only for a blank device, a type exactly for a single signature of a type, and an error otherwise |
| `Filesystem.Device.GetFilesystemType` | pkg/lvm/lvm.go:381-408 | reports blank only for a blank device, even if blkid missed a signature; otherwise what the two probes establish |
| `Filesystem.BlankIsBlank` | pkg/lvm/lvm.go:381-445 | the probes take a device for blank exactly if it has no signature, blkid finds none and wipefs reports |
| `Filesystem.FoundMeans` | pkg/lvm/lvm.go:381-445 | a type is found exactly if blkid prints it, or blkid finds none and wipefs reports it as the single signature |
| `Filesystem.Device.EnsureFilesystem` | pkg/lvm/lvm.go:294-313 | leaves the device alone or runs one mkfs on a blank one; success means the type was reported or just made; another type is refused untouched |
| `Filesystem.Device.PrepareForMount` | pkg/lvm/lvm.go:274-292 | the wanted type is the given one, or ext4 if none is given: a blank device gets it, a device with it is accepted, one with another is refused, the last two untouched |
| `Filesystem.SignatureStays` | pkg/lvm/lvm.go:294-313 | over any run of attempts a device with a signature is never changed again |
| `Filesystem.AtMostOneFormat` | pkg/lvm/lvm.go:294-313 | over any run of attempts every mkfs met a blank device and at most one succeeded, the last |
| `MountOptions.NormalizeMountOptions` | pkg/lvm/lvm.go:447-464 | the loop computes the normal form: split, trimmed, filtered, in order, with ro added when read-only |
| `MountOptions.NormalizedMembers` | pkg/lvm/lvm.go:447-464 | the result holds exactly the trimmed parts given, without empty ones and, when read-only, without rw and with ro |
| `MountOptions.NormalizedInOrder` | pkg/lvm/lvm.go:447-464 | in the order given and as often, with ro at the end when read-only and missing |
| `Text.TrimSpaceMeans` | pkg/lvm/lvm.go:453-453 | trimming takes away the spaces at both ends and nothing else |
| `MountOptions.NormalizeIdempotent` | pkg/lvm/lvm.go:447-464 | normalising a normal form changes nothing |
| `MountOptions.JoinedOptionsSplit` | pkg/lvm/lvm.go:334-342 | joining a non-empty normal form with commas and splitting gives it back |
| `MountOptions.ReadOnlyEnforced` | pkg/lvm/lvm.go:452-463 | with read-only set the result contains ro and never rw |
| `MountOptions.KeptInOrder` | pkg/lvm/lvm.go:447-464 | what is kept is a subsequence: order is preserved |
| `MountOptions.KeptMembers` | pkg/lvm/lvm.go:452-460 | what is kept is exactly the options that are neither empty nor, when read-only, rw |
| `MountOptions.MountArgsCarryOptions` | pkg/lvm/lvm.go:334-342 | the argument after -o splits into exactly the normal form, and is absent exactly when that is empty |
| `SnapshotRecords.EncodeDecode` | pkg/lvm/controllerserver.go:934-953 | a valid location survives its record for its own handle, and for any other handle reading is refused |
| `SnapshotRecords.DecodeMeans` | pkg/lvm/controllerserver.go:1017-1041 | a record reads as a location exactly if it is labelled and names the handle, a node and a valid group |
| `SnapshotRecords.ReadsOwnLocationOnly` | pkg/lvm/controllerserver.go:998-1041 | for any naming, even a colliding one, reading a handle never gives another's location nor an invalid one |
| `SnapshotRecords.RecordTwice` | pkg/lvm/controllerserver.go:955-996 | recording twice is recording once |
| `SnapshotRecords.ConflictRefused` | pkg/lvm/controllerserver.go:973-995 | a handle recorded at one place is refused at every other, and the record stays |
| `SnapshotRecords.CollisionRefused` | pkg/lvm/controllerserver.go:973-995 | a second handle under the same record name is refused, and the record stays |
| `SnapshotSystem.RecordsWriteOnce` | pkg/lvm/controllerserver.go:955-996 | no step changes a record; only forgetting removes one |
| `SnapshotSystem.RecordStays` | pkg/lvm/controllerserver.go:955-1053 | over any run without forgetting a record stays as it was written |
| `SnapshotSystem.InvStep` | pkg/lvm/controllerserver.go:597-710 | every step, a crash included, keeps: each LV, each helper that may still make one and each call past its record is on record |
| `SnapshotSystem.EverySnapshotRecorded` | pkg/lvm/controllerserver.go:623-634 | in every reachable state, with crashes between any two steps, each snapshot LV has a record naming exactly its place |
| `SnapshotSystem.OnePlacePerHandle` | pkg/lvm/controllerserver.go:623-634 | no handle ever has LVs at two places |
| `SnapshotSystem.DeleteLeavesNothing` | pkg/lvm/controllerserver.go:698-707 | when a delete is about to forget the record, no LV of the handle is left anywhere |
| `SnapshotHypotheses.FairRunKeepsAll` | pkg/lvm/controllerserver.go:597-710 | a run that keeps all four hypotheses but one, and all but another, is a fair run |
| `SnapshotHypotheses.CollidingForgetLosesRecord` | pkg/lvm/controllerserver.go:1043-1053 | with a colliding naming and the three other hypotheses kept: a run in which deleting one snapshot leaves another LV without its record |
| `SnapshotHypotheses.FalsePlaceLosesRecord` | pkg/lvm/controllerserver.go:838-869 | with a wrong told place and the others kept: a delete misses the LV and forgets its record |
| `SnapshotHypotheses.LeftHelperLosesRecord` | pkg/lvm/controllerserver.go:623-634 | with one call at a time but a create helper left behind, the others kept: it takes its snapshot after the record was forgotten |
| `SnapshotHypotheses.OverlappingCreateLosesRecord` | pkg/lvm/controllerserver.go:698-707 | with a create during a delete of its handle, the others kept: the create relies on a record that the delete forgets |
| `SnapshotController.Controller.RecordSnapshotLocation` | pkg/lvm/controllerserver.go:955-996 | refuses exactly locations with a missing part or an invalid group; undisturbed a valid one under a free name is recorded, and in every case answer and new records are determined by the old; meets RecordSpec |
| `SnapshotController.Controller.ReadRecord` | pkg/lvm/controllerserver.go:973-995 | a record in the way is accepted exactly if it decodes to the same location |
| `SnapshotController.ConflictMeans` | pkg/lvm/controllerserver.go:973-995 | an existing record is accepted exactly if it holds this place, AlreadyExists exactly if it holds another of the handle, FailedPrecondition exactly if it is not readable |
| `SnapshotController.Controller.LookupSnapshotLocation` | pkg/lvm/controllerserver.go:998-1015 | finds only what is recorded for that handle; an unreadable record is an error and not an absence |
| `SnapshotController.Controller.ForgetSnapshotLocation` | pkg/lvm/controllerserver.go:1043-1053 | removes at most the one record |
| `SnapshotController.Controller.CreateSnapshot` | pkg/lvm/controllerserver.go:597-637 | refuses bad requests, and sources that are gone, unreadable or unusable, with their codes and without a step; undisturbed the place is recorded if it can be, and the helper started there exactly then; all LVs are on record at its end |
| `SnapshotController.Controller.TakeSnapshot` | pkg/lvm/controllerserver.go:623-634 | undisturbed the helper is started exactly when the place is on record, and its result is returned |
| `SnapshotController.TargetsAreToldOrRecorded` | pkg/lvm/controllerserver.go:763-869 | a deletion target comes from annotations or PV, or else from the record, and from nowhere else |
| `SnapshotController.NothingToDelete` | pkg/lvm/controllerserver.go:808-869 | a delete does nothing, successfully, exactly when the source volume is gone and no record exists |
| `SnapshotController.ResolutionMeans` | pkg/lvm/controllerserver.go:733-892 | every delete has exactly one of: a place to erase, told by a readable PV or both annotations or else recorded; a code for why not; nothing known of a source volume that is gone |
| `SnapshotController.Controller.DeleteSnapshotAction` | pkg/lvm/controllerserver.go:733-869 | undisturbed it answers the place to erase, the code of the case, or that there is nothing to do; disturbed, it still follows the rules with the record as read |
| `SnapshotController.Controller.EraseSnapshot` | pkg/lvm/controllerserver.go:698-707 | the LV goes first; the record goes exactly when the LV went |
| `SnapshotController.Controller.DeleteSnapshot` | pkg/lvm/controllerserver.go:674-710 | undisturbed, with a place to erase and a helper that succeeds it succeeds, and exactly that LV and this handle's record are gone; with a helper that fails, or without a place, nothing changes and the answer is the helper's, the code of the case or success; all LVs are on record at its end |
| `VolumeMetadata.NodeFromAccessibility` | pkg/lvm/validation.go:190-224 | succeeds exactly if a node can be chosen, and then returns it |
| `VolumeMetadata.ChoiceOrderIndependent` | pkg/lvm/validation.go:190-224 | at most one node can be chosen; order and repetition of the requisite topologies play no part |
| `VolumeMetadata.ChosenIsAllowed` | pkg/lvm/validation.go:207-213 | when there are requisite nodes the chosen one is among them |
| `VolumeMetadata.NamedNodeChosen` | pkg/lvm/validation.go:190-224 | a requirement with one topology chooses the node under its topology key |
| `VolumeMetadata.MatchExpressionsFromTerms` | pkg/lvm/validation.go:308-314 | exactly the expressions of all terms |
| `VolumeMetadata.NodeFromPVAffinity` | pkg/lvm/validation.go:271-306 | succeeds exactly if all topology expressions use In and their distinct non-empty values are one node, which it returns |
| `VolumeMetadata.OtherOperatorRefused` | pkg/lvm/validation.go:283-290 | a topology expression with another operator than In leaves no node |
| `VolumeMetadata.TwoNodesRefused` | pkg/lvm/validation.go:271-306 | two different node names leave no node |
| `VolumeMetadata.AffinityOrderIndependent` | pkg/lvm/validation.go:271-306 | order and grouping of the expressions play no part |
| `VolumeMetadata.BuildVolumeContext` | pkg/lvm/validation.go:73-80 | the parameters with RequiredBytes set, also when they already had that key |
| `VolumeMetadata.MetadataFromPV` | pkg/lvm/validation.go:236-269 | succeeds exactly for a PV with valid group, known type and one node, and returns these |
| `VolumeMetadata.MetadataMeans` | pkg/lvm/validation.go:236-269 | metadata is read exactly from a valid "vgName", a "type" of striped or dm-thin, and one node |
| `VolumeMetadata.RequiredBytesMean` | pkg/lvm/validation.go:316-329 | the size is read exactly from a positive 64-bit number under "RequiredBytes" |
| `VolumeMetadata.ParametersMean` | pkg/lvm/validation.go:32-47 | parameters are accepted exactly with a "type" of striped or dm-thin and a valid "vgName" |
| `DriverNames.VGNameMeans` | pkg/lvm/validation.go:14-30 | the volume group names that are accepted |
| `Text.FormatParse` | pkg/lvm/validation.go:316-329 | printing and parsing an int64 gives it back |
| `Text.ParseMeans` | pkg/lvm/validation.go:316-329 | what is read as a number: digits with at most one sign, of a value that fits 64 bits |
| `Text.FormatCanonical` | pkg/lvm/validation.go:73-80 | sizes are printed without leading zeros, with a sign only when negative |
| `VolumeMetadata.Publish` | pkg/lvm/controllerserver.go:118-147 | refuses exactly requests without valid parameters, positive size or a choosable node; for the others provisions on the chosen node with that size, returns its error, or publishes context, topology and capacity |
| `VolumeMetadata.PublishedIsReadBack` | pkg/lvm/validation.go:236-329 | a PV that carries what was published gives exactly the chosen node, group, type and requested bytes |
| `StorageClassWebhook.FirstOfMeans` | pkg/webhook/storageclass/validator.go:147-156 | the node is the first value of the first topology expression; out of bounds exactly if that has none |
| `StorageClassWebhook.GetLVMTopologyNodes` | pkg/webhook/storageclass/validator.go:147-156 | the nested loops compute that node |
| `StorageClassWebhook.ValidateTopologyNodes` | pkg/webhook/storageclass/validator.go:50-90 | accepts exactly non-LVM classes and classes whose topology expressions each name one existing node |
| `StorageClassWebhook.ValidIsReadable` | pkg/webhook/storageclass/validator.go:68-88 | a class that passed is never read out of bounds |
| `StorageClassWebhook.ValidateUniqueVGType` | pkg/webhook/storageclass/validator.go:92-131 | over readable classes a readable LVM class is admitted exactly if it has a type, a group and a node, and no listed LVM class of another name has the same first node, the same "vgName" and another "type" |
| `StorageClassWebhook.Create` | pkg/webhook/storageclass/validator.go:33-38 | over readable classes it never crashes, and admits an LVM class exactly if its topology is valid, it is fully named, and no listed class is in its way as above; so a valid class of a group of its own is admitted |
| `StorageClassWebhook.Update` | pkg/webhook/storageclass/validator.go:40-48 | admits exactly if the first node is unchanged and readable |
| `StorageClassWebhook.OneTypePerGroup` | pkg/webhook/storageclass/validator.go:92-131 | over any run of admitted creates, updates and deletes, LVM classes of one first topology node and group have one type and stay readable |
| `StorageClassWebhook.AgreeMeans` | pkg/webhook/storageclass/validator.go:119-128 | the agreement that is kept, written out in provisioner, first node and parameters |
| `StorageClassWebhook.OneTypePerNode` | pkg/webhook/storageclass/validator.go:92-131 | over such runs among classes that name one node each, classes that share any node and group have one type |
| `StorageClassWebhook.OneNodeExact` | pkg/webhook/storageclass/validator.go:119-122 | a valid class agrees with every one-node class accepted beside it on a shared node if and only if it names no node but its first |
| `StorageClassWebhook.SecondNodeEscapes` | pkg/webhook/storageclass/validator.go:147-156 | an admissible run of two creates after which classes that share a node and group have different types |
| `StorageClassWebhook.ConcurrentCreatesDisagree` | pkg/webhook/storageclass/validator.go:106-110 | any two valid classes of one first node and group and different types are both acceptable beside the same list, and disagree once both are there |
| `StorageClassWebhook.SerialisedCreateRefused` | pkg/webhook/storageclass/validator.go:110-129 | checked one after another, the second is not acceptable beside the first |

## Left out

- gRPC plumbing, the identity server, the command line, logging, charts and scripts: nothing to prove there.
- JSON decoding, regular expressions, SHA-256 and the text of errors: abstracted. A ConfigMap's name is an arbitrary function of the handle, a printed duration an arbitrary function of it.
- `CloneDevice` and the copying of a clone's content: the copying is done by a library that is not part of this model, and `RunClone` takes its outcome as given. The thin-snapshot fast path passes no size, and nothing is claimed about the destination's size.
- Discovery and activation of volume groups (`EnsureVG`, `vgscan`, `vgchange`): a group that is not there shows as a failing query.
- Mount targets, bind mounts, permissions and the unmount ladder: calls to the file system with little to prove.
- Capability checks and request fields that are checked by one branch.
- The check in `DeleteVolume` that the volume's node still exists, and the metadata of restores from pre-provisioned snapshots.
- The decoding of the numbers and attribute strings that `lvs` prints: an LV's size, type, activity and health are values of the table. A size that cannot be parsed counts as a failed query.
- 64-bit widths of sizes in LVM commands: sizes are natural numbers there. Only what is printed into and parsed from a volume context has the int64 range.
- Pod fields that every helper has in common (tolerations, security context, grace period, mounts): they agree between any two helpers of one driver version and play no part in the reuse test.
- Fairness of time: a call may wait for its lock or pod until its script ends. That a call is finally admitted when there is room is stated for a quiet call (`EnsureHelper`), not as a liveness claim over unfair runs.
- HelperPodFacts.StoredDerives: of the defaults the API server fills in, the stored pod has the two whose fields the pod model has and the driver leaves unset; that further ones do no harm is `StillDerives`.
- LvmBackend.Node.ResizeFilesystem: that the mounted filesystem `xfs_growfs` is pointed at is the one on the volume's device is taken for granted.
- SnapshotController.Controller.CreateSnapshot: a helper run is reduced to its result and to the LV that may appear; the pod protocol behind it, with its effects, is that of `HelperSystem` and `HelperEffects`, and the records are not composed with it.
- Provisioner.CommandLineParsesBack: command lines are lists of flags and values as the driver builds them; other spellings that the flag library accepts are not modelled.
