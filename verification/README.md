# Model Fleet: a Dafny model of its command path and controllers

Model Fleet is a Kubernetes operator with a durable command path. People type
commands in Slack; a producer appends them to a Kafka log; a worker turns each
into a merge patch of the intent of a custom resource; controllers converge
child objects to that intent. Beside it stand a pipeline that hands work to
agents over Kafka, and a small service for cloud quotas. This project models
these parts in Dafny and proves what they promise, for every input, every run
and every reachable state.

`dafny verify dfyconfig.toml` checks the whole project.

## How it is laid out

| file | what it holds |
|---|---|
| `JsonMerge.dfy` | JSON values and the merge patch of section 2 of RFC 7396: which patches absorb which, when a patch is a fixed point, what it leaves alone |
| `Commands.dfy` | the command envelope, its validation, the patch table, and the algebra of replayed commands |
| `Delivery.dfy`, `DeliveryTheorems.dfy` | delivery as a crash-restart step machine over partitions, its invariant, and the theorems about every run |
| `Rewind.dfy`, `RewindRecords.dfy` | the same delivery when offsets are set back at any time: when that ends in log order, and its records |
| `CommandWorker.dfy` | the worker's loop in its imperative form, proved to take only steps of that machine |
| `Reconcile.dfy`, `Suspension.dfy`, `Cancellation.dfy` | one reconcile pass with a fault at any call, restart convergence, and the interleaving of commands, passes, the autoscaler and Jobs that come and go |
| `AgentScaling.dfy`, `AgentOverlap.dfy` | the replica intent of managed agents, one pass at a time and with overlapping handlers |
| `GpuFit.dfy`, `GpuRounding.dfy`, `GpuExtremes.dfy`, `Binary64.dfy` | the GPU memory requirement over exact reals, under bounded rounding errors, and with nearest binary64 numbers (section 4.3.1 of IEEE 754-2019); the capacity classes |
| `Placement.dfy`, `Datasets.dfy`, `PodBuilder.dfy` | what node selectors and affinities mean, dataset mounts, and the builder that rewrites dictionaries shared with the submitted body |
| `SlackGrammar.dfy`, `SlackTexts.dfy`, `SlackWords.dfy` | the command grammar over characters, its printer, and the App Home buttons; mentions, padding and quoting; spellings, names, and the table from typed words to fields |
| `AgentPipeline.dfy`, `AgentPhases.dfy`, `AgentLosses.dfy` | agent tasks from submission to result as a crash-restart step machine, when a phase is final, and what is lost |
| `AgentWorker.dfy`, `AgentMetrics.dfy` | the Go worker's loop and gauges, and those gauges under any interleaving of threads |
| `PrometheusLabel.dfy` | the Go label escape and its decoder |
| `Quotas.dfy` | quota requests that are not opened twice, and names that ignore argument order |

## The main results

- **Exactly once in effect.** Delivery is at least once: patches can take effect
  and still raise, publications and commits can fail after their effect, and the
  worker can stop anywhere. In every reachable state of every run, each object
  is the in-order replay of the commands whose patch took effect, each offset
  taken once. The imperative worker is tied to the same machine.
- **Nothing lost, duplicates bounded, and exactly which logs drain.** Every
  committed offset has a record, records number at most one more than commits and
  ends of the process together, and a partition can be drained if and only if no message from the committed
  offset on is poison.
- **Rewinds end in order.** With offsets set back at any time, the intent is
  again the in-order fold, each offset once, as soon as the partition has caught
  up; before that, exactly when every field has the same last written value. The
  records lose nothing, and grow by no more than the offsets rewound over.
- **Restart convergence.** However often and wherever earlier passes were cut
  off, one full pass gives the store of one uninterrupted pass, and a second one
  changes nothing; on an empty store that premise (no null member in a built
  object) is exact.
- **Asleep means asleep.** After a completed pass over a suspended service there
  is no scaler and no replica until the intent changes, in every interleaving
  without an autoscaler step in the window between two calls; with such steps,
  exactly when it still holds.
- **When floats give the exact GPU requirement.** Within 1 GiB, equal, and equal
  however the operations round: each with its condition on the plan, and one plan
  that binary64 gets wrong.
- **A pod that runs where it was meant to run.** From the submitted body to the
  built pod: nodes, class, GPU count, mounts and hash, while the body itself is
  never changed although the builder shares its objects.
- **From typed text to fields.** Every quoted line splits into what its words mean;
  mentions, white space, capitals and aliases change nothing about a command; and
  each line of the command table sets the fields it names and no other.
- **Grammar round trips**, **a label escape with an inverse**, **agent phases
  that are final exactly when nothing about them is in flight**, and **quota
  requests that pass the guards twice only for "nan"**.

## What the code does that its documentation does not say

The model follows the code. Each of these is stated by a lemma.

- A command whose first attempt fails and whose retry succeeds is dead-lettered
  as rejected although it took effect: the noted error is never cleared
  (`src/modelfleet/command_worker.py:92-102`). `docs/KAFKA_COMMANDS.md:64-70`
  describes replaying dead letters. Such a replay is harmless exactly when it
  overturns no field (`Commands.ReplayAfterIff`); a dead-lettered wake replayed
  after a sleep wakes the service (`DeliveryTheorems.DeadLetterReplayIff`).
- Validation looks at verb and kind separately, the patch table does not have
  every pair (`src/modelfleet/kafka.py:94`, `src/modelfleet/slack.py:250-264`).
  A validated command without an entry, and a message that is valid JSON but no
  object, stop every worker before the commit, so the partition stays where it
  is. The Slack grammar lets people type such commands: `wake training ns/name`.
- `forceActive` sets the scaler's minimum to 1 even when the configured minimum
  is larger (`src/modelfleet/resources.py:448`).
- A required node-affinity term without requirements matches no node; after the
  product expression is appended it matches nodes
  (`src/modelfleet/resources.py:110-116`).
- App Home buttons for a resource whose name has dots do not parse.
- Nothing orders the "routed" mark of an agent task before the mark of its
  result (`src/modelfleet/supervisor.py:149-161`): a task can say "routed" for
  good although its result was applied and committed.
- The supervisor and the Python agent publish without a delivery callback, so a
  message the producer gives up on leaves the queue without an error. A task can
  be committed and have no result, or be routed for good and never reach the log;
  the given-up messages account for exactly these tasks
  (`AgentLosses.LossesAccountedFor`).
- The Go worker allocates its gauges on first use without a lock; two threads
  that start together can drive the exported gauge to -1.
- `quota ... nan confirm` passes every comparison and is submitted each time.
- The text digested for a quota preference belongs to one target exactly when the
  command has no dimensions and no `|` in its service and quota.
- Handlers of one agent registration can overlap, as changes and the timer start
  them independently (`src/modelfleet/operator.py:462-466`), and each of them can
  scale the same Deployment.

## Model

| member | source | states |
|---|---|---|
| JsonMerge.Absorb | src/modelfleet/operator.py:39-55 | a merge patch whose members cover an earlier one's absorbs it, on every target |
| JsonMerge.MergeIsPatchIff | src/modelfleet/operator.py:45-55 | a patch leaves exactly itself behind iff it has no null member and the target had nothing the patch drops |
| JsonMerge.MergeSets | src/modelfleet/slack.py:266-273 | every scalar or array a patch gives is found at its path afterwards, whatever was there |
| JsonMerge.MergeFrame | src/modelfleet/slack.py:266-273 | a path the patch does not touch keeps its value, present or absent |
| Commands.AcceptedIff | src/modelfleet/kafka.py:83-101 | a payload validates as an order iff it is an envelope of that order: identity, schema, known verb and kind, target, actor, and confirmation of destructive verbs |
| Commands.EnvelopeRoundTrip | src/modelfleet/kafka.py:63-101 | an enqueued command validates iff it was fit to send (sleep and cancel confirmed, an id of 32 characters, nothing empty), and is then read back unchanged, with the actor cut to 80 characters |
| Commands.WorkloadKeyInjective | src/modelfleet/kafka.py:138-142 | two workloads, whose namespaces hold no slash, never share a partition key |
| Commands.PatchActs | src/modelfleet/slack.py:242-273 | on the object itself a patch does to suspend, forceActive, cancelled and the last command id what the command stands for |
| Commands.PatchRecords | src/modelfleet/slack.py:243-248 | after a patch the object's annotations name the actor, the time and the command; a command without an id keeps the last one |
| Commands.ConfirmsIff | src/modelfleet/kafka.py:99 | a destructive command is confirmed by every value but null, false, zero and what is empty |
| Commands.PatchKeepsSpec | src/modelfleet/slack.py:266-273 | every other field of the specification is kept |
| Commands.PatchAbsorbsRedelivery | src/modelfleet/slack.py:243-273 | a redelivered command overwrites all its first delivery wrote, time stamp included |
| Commands.LastWriterWins | src/modelfleet/slack.py:249-264 | field by field, a sequence of commands leaves what the last one that writes the field gives |
| Commands.ReplayHarmless | src/modelfleet/command_worker.py:119-129 | for every state, every sequence w and every sequence p of commands of w: replaying p and then w equals replaying w |
| Commands.CancelAbsorbs | src/modelfleet/slack.py:250-254 | a cancelled training run stays cancelled under every later command |
| Commands.ReplayAfterIff | src/modelfleet/slack.py:242-273 | replaying commands of w after w changes nothing iff for every field the last of them that writes it writes what the last of w does; likewise for the control fields alone |
| Commands.FoldsAgreeIff | src/modelfleet/slack.py:242-273 | two sequences that write the same fields have the same effect iff their last written values agree |
| Delivery.VerdictIff | src/modelfleet/command_worker.py:73-91 | a message stops the worker uncaught iff it is valid JSON and no object; it is dead-lettered as invalid iff it does not decode or is an object that is the envelope of no order |
| Delivery.StepKeeps | src/modelfleet/command_worker.py:64-131 | every step of delivery, with every failure, keeps the invariant of partitions and objects |
| DeliveryTheorems.ExactlyOnceInEffect | src/modelfleet/command_worker.py:64-131 | in every reachable state each object is the in-order replay of the commands whose patch took effect, each offset once, and its intent the fold of them |
| DeliveryTheorems.RecordsAccountForLog | src/modelfleet/command_worker.py:74-129 | every committed offset has a record and no poison; an applied event implies an effect; records are at most committed + 1 + the times the process ended during the run |
| DeliveryTheorems.DrainableIff | src/modelfleet/command_worker.py:73-98 | from every reachable state a partition can be drained iff no message from the committed offset on is poison |
| DeliveryTheorems.RetriedSuccessIsDeadLettered | src/modelfleet/command_worker.py:92-117 | with two attempts or more, for every order with a patch, a run in which it takes effect and its only record is a dead letter |
| DeliveryTheorems.DeadLetterReplayIff | src/modelfleet/command_worker.py:102-129 | for any two orders about a workload: a run dead-letters the first after its effect and applies the second; publishing the first again keeps what the controllers act on iff it overturns no control field |
| DeliveryTheorems.WakeOverturnsSleep | src/modelfleet/slack.py:260-264 | a wake published again after a sleep overturns suspend and forceActive |
| Rewind.RewindsEndInOrder | src/modelfleet/command_worker.py:119-129 | in every run with rewinds of any partition to any committed offset the intent is the fold in the order of effects; it is the fold in log order, each offset once, iff the last written values agree, and whenever the partition has caught up |
| RewindRecords.RecordsSurviveRewinds | src/modelfleet/command_worker.py:74-129 | in every run with rewinds every committed offset has a record and no poison, an applied event implies an effect, and records are at most committed + crashes + the offsets rewound over + 1 |
| CommandWorker.Worker.Enqueue | src/modelfleet/kafka.py:135-143 | a command is sent iff it is fit to send, and lands last in its workload's partition as the same order |
| CommandWorker.Worker.TryOnce | src/modelfleet/slack.py:242-274 | one patch call moves the machine by one step and the objects by the effect of the reply, also when it raises |
| CommandWorker.Worker.Turn | src/modelfleet/command_worker.py:94-101 | another attempt follows iff this one was an API error other than 400, 403, 404 and 422 and was not the last one allowed; every API error is noted |
| CommandWorker.Worker.Attempt | src/modelfleet/command_worker.py:92-101 | exactly the calls up to the first that ends them, the pauses between them, the object patched as the last call with an effect leaves it, an error noted for ever, no call for a pair the table lacks |
| CommandWorker.CallsInFigures | src/modelfleet/command_worker.py:92-101 | calls go on until one succeeds, ends the process, is refused with 400, 403, 404 or 422, or is the last one allowed, never less than one; pauses of 2, 4, 8 and 16 seconds and the jitter, then of 30 |
| CommandWorker.PatchedInFigures | src/modelfleet/command_worker.py:92-101 | after the calls the object is patched iff one of them took effect, as of the last that did, and nothing else is changed |
| CommandWorker.Worker.Send | src/modelfleet/kafka.py:118-133 | a record goes to the event or the dead-letter topic, and a failed publication, with or without effect, ends the process uncommitted |
| CommandWorker.Worker.DeliverNext | src/modelfleet/command_worker.py:64-131 | one turn of the loop is a run of the machine; if the process survives, exactly one record and one commit, an applied event iff the first call succeeded; calls, pauses and objects as the loop leaves them |
| Reconcile.RestartConverges | src/modelfleet/operator.py:98-143 | where no built object has a null member: however often and wherever passes were cut off, a full pass gives the store of one uninterrupted pass, and a second changes nothing |
| Reconcile.SecondPassIff | src/modelfleet/operator.py:39-80 | from an empty store a second pass changes nothing iff no built object has a null member |
| Reconcile.PassEstablishes | src/modelfleet/operator.py:106-143 | after a full pass the scaler exists iff autoscaling is on and not suspended, the route iff the gateway is on, every leaf of every built object is present, other names are untouched |
| Reconcile.PassLeavesExactlyIff | src/modelfleet/operator.py:45-55 | a child equals the built object iff it was absent or had no field that object drops |
| Reconcile.ReplicasAfterPass | src/modelfleet/resources.py:308-310 | the replicas a full pass leaves: 0 if suspended; else the configured number or 1; with autoscaling at least that and the configured minimum, and equal to one of them |
| Reconcile.FiguresAfterPass | src/modelfleet/resources.py:360-388 | the Service's port or 80; the scaler's minimum, 1 when pinned, and its maximum or 1 |
| Reconcile.ScalerAfterPass | src/modelfleet/resources.py:433-464 | the scaler's target, triggers and fallback |
| Reconcile.RouteAfterPass | src/modelfleet/resources.py:392-420 | the route's prefix, "/" by default, and the Service's port |
| Reconcile.RouteRefersTo | src/modelfleet/resources.py:392-420 | the route's gateway, and its hostnames where any are given |
| Reconcile.NamesAfterPass | src/modelfleet/resources.py:298-464 | every child that is there carries the service's name and namespace |
| Reconcile.TemplateAfterPass | src/modelfleet/resources.py:298-357 | every leaf of the pod template is in the Deployment, whatever was there |
| Reconcile.RefusedIff | src/modelfleet/operator.py:106-151 | exactly the services whose pass is refused |
| Reconcile.PinnedFloor | src/modelfleet/resources.py:433-464 | after a full pass the scaler's minimum is 1 when pinned, else the configured one; the Deployment's replicas do not depend on the pin |
| Reconcile.Cluster.UpsertChild | src/modelfleet/operator.py:39-55 | read, then create or merge-patch; a call that raises may have taken effect |
| Reconcile.Cluster.DeleteChild | src/modelfleet/operator.py:83-95 | a deletion removes the child; a missing one is no error |
| Reconcile.Cluster.ReconcileInference | src/modelfleet/operator.py:98-156 | a pass with a fault at any call performs a prefix of the planned calls, all of them when it completes |
| Suspension.SuspendedStaysAsleep | src/modelfleet/operator.py:107-124 | once a pass over a suspended service has completed, no replica and no scaler until the intent is written, in every run without an autoscaler step in the window |
| Suspension.CompletionSettles | src/modelfleet/operator.py:98-166 | from every state without a pass, a pass over a valid, suspended intent can run to its end and settles it |
| Suspension.AsleepDespiteDisturbanceIff | src/modelfleet/operator.py:107-124 | over every run of one pass with autoscaler writes anywhere and new intents in between: the service ends asleep iff nothing was written inside the window or the last write there was zero |
| Cancellation.NoMoreJobsIff | src/modelfleet/operator.py:39-55 | with the read and the create of a pass apart and the Job changing in between: from a state no run ever creates a Job iff the run is cancelled and no pass is under way that could |
| Cancellation.CanBeCancelled | src/modelfleet/operator.py:271-295 | from every state the run can be cancelled and a pass over it can complete |
| Cancellation.PassSetsJob | src/modelfleet/operator.py:297-313 | from every state without a pass and not cancelled, a pass can complete and leave the Job suspended as the specification says |
| Cancellation.CancelledJobStaysGone | src/modelfleet/operator.py:271-313 | in every interleaving, once a pass over a cancelled run has completed no Job is created again, and one that remains is being deleted |
| AgentScaling.Namespace.Reconcile | src/modelfleet/operator.py:180-244 | a Deployment is scaled only by the registration its annotation names; a patch takes exactly that Deployment off the off-target set; which phase for which case: Suspended leaves no replica, Active the configured number or 1 |
| AgentScaling.Namespace.RunSchedule | src/modelfleet/operator.py:231-235 | any schedule of passes, one after the other, issues at most one patch for each off-target Deployment plus one for each patch that raised |
| AgentOverlap.OverlapBounded | src/modelfleet/operator.py:199-235 | with at most m overlapping handlers for a registration, reads and patches interleaved in any way: no patch of a Deployment that was on target, else at most m more than those that raised |
| AgentOverlap.ReadWaitsIff | src/modelfleet/operator.py:199-231 | a handler goes on to patch a Deployment iff its registration names it, the annotation names the registration, and its replicas are not 0 when suspended, else the configured number or 1 |
| AgentOverlap.PatchSets | src/modelfleet/operator.py:230-234 | a patch with an effect leaves those replicas, also when it raises, and changes nothing else |
| AgentOverlap.AtRest | src/modelfleet/operator.py:231-235 | a Deployment on target that no handler is about to patch is never patched again |
| AgentOverlap.BoundReached | src/modelfleet/operator.py:199-235 | for every m and every off-target Deployment, a run in which m overlapping handlers patch it exactly m times and no patch raises: the bound is tight |
| GpuFit.GpuMemoryRequirement | src/modelfleet/resources.py:44-94 | the accumulating loop returns the requirement iff the plan passes every check, else the first check that fails |
| GpuFit.RequirementIsLeastCover | src/modelfleet/resources.py:93-94 | the requirement is the least whole number of GiB that covers the declared floor and the formula, and is at least 1 |
| GpuFit.RequirementMonotone | src/modelfleet/resources.py:63-94 | it grows with every memory, the margin and the floor, shrinks with more GPUs, and never falls when a module becomes replicated |
| GpuFit.UsableIff | src/modelfleet/resources.py:44-92 | exactly the plans that pass every check, field by field |
| GpuFit.Defaults | src/modelfleet/resources.py:46-127 | a plan that does not give the count, the floor, the margin or the class is the plan with 1, null, 10 and "auto" |
| GpuFit.UnstatedIsReplicated | src/modelfleet/resources.py:68 | a module that states no distribution needs what a replicated one needs |
| GpuFit.OneModule | src/modelfleet/resources.py:78-93 | a single module needs the least whole number covering x/count with the margin if it is "sharded", and x with the margin if "replicated" |
| GpuFit.TwoModules | src/modelfleet/resources.py:78-93 | the formula for a sharded beside a replicated module, at every count and margin |
| GpuFit.ModulesAdd | src/modelfleet/resources.py:78-81 | two modules of one distribution need what one module of their sum needs, beside any others |
| GpuFit.NoFit | src/modelfleet/resources.py:56-58 | without a fit the declared floor, if any, is the requirement |
| GpuFit.FloorRaises | src/modelfleet/resources.py:94 | with a declared floor the larger of floor and formula is required |
| GpuFit.RequirementIgnoresOrder | src/modelfleet/resources.py:65-83 | every permutation of the modules gives the same requirement |
| GpuFit.SmallestClass | src/modelfleet/resources.py:30-41 | the first hit of the loop is the smallest class that holds the requirement; refused iff not positive |
| GpuFit.ExplicitClassIff | src/modelfleet/resources.py:127-143 | an explicit class is accepted iff it is not below the automatic one |
| GpuRounding.ResultNear | src/modelfleet/resources.py:63-93 | with relative error at most u per operation, the product for n modules is within n + 4 roundings of the formula, one more where a whole memory is beyond 2^53 and is rounded itself |
| GpuRounding.FloatWithinOneGiB | src/modelfleet/resources.py:63-94 | the computed requirement differs from the exact one by at most 1 GiB whenever those roundings carry the value by at most 1 |
| GpuRounding.FloatAgrees | src/modelfleet/resources.py:63-94 | the computed requirement is the exact one whenever no whole number lies within that drift on the side that changes the ceiling, or the declared floor is beyond it |
| GpuExtremes.ResultWithin | src/modelfleet/resources.py:63-93 | every computation lies between the one with all roundings down and the one with all roundings up |
| GpuExtremes.AlwaysExactIff | src/modelfleet/resources.py:63-94 | however the operations round the computed requirement is the exact one, iff it is in those two extreme computations |
| Binary64.FiftyComesOutFiftySix | src/modelfleet/resources.py:93 | 50 GiB replicated at 10 percent is exactly 55, and 56 when every operation gives the one binary64 number nearest to its exact result |
| Binary64.NearestTo | src/modelfleet/resources.py:93 | a number within half the spacing of its binade is nearer than every other binary64 number |
| Placement.ProductMeaning | src/modelfleet/resources.py:97-117 | for every node, what the product rewrite admits in terms of what the pod admitted before |
| Placement.PlacementMeaning | src/modelfleet/resources.py:97-165 | for every node, the placed pod admits it iff the submitted one did and it has the class and one of the products; everything else of the affinity is kept; the only pods left out are those with a term without requirements that is rewritten |
| Placement.MeaningKeptIff | src/modelfleet/resources.py:97-165 | the placed pod admits, on all nodes, exactly the wanted ones the submitted pod admitted, iff no term without requirements is rewritten or every wanted node the selector admits was admitted anyway |
| Placement.EmptyTermWidens | src/modelfleet/resources.py:110-116 | with a term without requirements the rewritten pod admits exactly the selected nodes of the class and products, whatever the other terms said |
| Placement.EmptyTermExample | src/modelfleet/resources.py:110-116 | a pod that admitted no node comes to admit one |
| Datasets.MountedKeeps | src/modelfleet/resources.py:263-295 | user volumes and mounts survive as a prefix, each PVC dataset adds one mount in order, paths and volume names stay distinct |
| Datasets.MountsResolve | src/modelfleet/resources.py:278-290 | each PVC dataset is mounted read-only at its path and sub-path, from a read-only volume of its own claim that repeated references share |
| Datasets.MountingRaisesIff | src/modelfleet/resources.py:267-277 | mounting raises iff some PVC dataset has no path or one already taken by the user or an earlier dataset |
| Datasets.Resolve | src/modelfleet/operator.py:324-360 | resolution succeeds iff every reference exists with the expected version and an allowed account, else the first refusal |
| PodBuilder.AppendProducts | src/modelfleet/resources.py:111-116 | the loop over the terms appends in place to each of them, or stops at the first that names a product |
| PodBuilder.ApplyGpuProductAffinity | src/modelfleet/resources.py:97-117 | changes only the pod's own reference; on every error the affinity is the old object |
| PodBuilder.ApplyAccelerator | src/modelfleet/resources.py:120-165 | the whole step on the heap equals its value form, errors in the same order, while only three references of pod and container change |
| PodBuilder.MountDatasets | src/modelfleet/resources.py:263-291 | the loop with its two name sets computes the mounting list |
| PodBuilder.ApplyDatasets | src/modelfleet/resources.py:247-295 | the manifest variable, volumes and mounts replace references, never shared lists |
| PodBuilder.BuildPod | src/modelfleet/resources.py:467-537 | nothing that existed before the call is changed, although pod and container start out as aliases of the body; the hash taken last is that of the submitted body |
| PodBuilder.BuildTwice | src/modelfleet/resources.py:467-537 | two builds of one body agree in the result, placement, volumes, resources, environment, mounts and hash |
| PodBuilder.BuiltPodFits | src/modelfleet/resources.py:467-537 | end to end: nodes, class capacity, GPU request and limit, environment, mounts, volumes and hash of the built pod in terms of the submitted body |
| PodBuilder.PlainPodKept | src/modelfleet/resources.py:467-537 | without an accelerator the built pod keeps selector, affinity and resources, and gets the manifest variable and mounts |
| PodBuilder.BuildsIff | src/modelfleet/resources.py:44-165 | exactly the bodies that build: no reserved variable or path clash, a plan that passes, a class that fits, a GPU request absent or equal to the count, a selector and affinity that leave room |
| SlackGrammar.LexJoin | src/modelfleet/slack.py:73-75 | splitting undoes joining words that need no quoting |
| SlackTexts.MentionDropped | src/modelfleet/slack.py:73 | a text with a mention anywhere parses as the text without it |
| SlackTexts.OpenMentionStays | src/modelfleet/slack.py:73 | a mention that is not closed stays in the text |
| SlackTexts.EmptyMentionStays | src/modelfleet/slack.py:73 | so does one that names nobody |
| SlackTexts.BracketStays | src/modelfleet/slack.py:73 | so does a bracket that no at sign follows |
| SlackTexts.PaddingDropped | src/modelfleet/slack.py:73 | white space around any text changes nothing |
| SlackTexts.LineReads | src/modelfleet/slack.py:75 | every line of words, each of bare, single-quoted, double-quoted and escaped pieces, splits into the meanings of its words, whatever white space is between them |
| SlackTexts.OpenLineRefused | src/modelfleet/slack.py:75-77 | a line that ends in an open quotation or a bare backslash is refused |
| SlackWords.TypedIff | src/modelfleet/slack.py:101-130 | with any capitals, either word for the kind, and any words after the target, a typed command parses to that command, confirmed iff "confirm" is among those words, iff the grammar speaks its pair and the name is a DNS label; else it is refused |
| SlackWords.TypedActs | src/modelfleet/slack.py:101-264 | each of the eight typed commands, on any resource with a DNS label and any stored object, sets suspend, forceActive and cancelled as the table says and keeps what it does not name |
| SlackWords.DnsLabelIff | src/modelfleet/slack.py:122 | a name passes iff it is of small letters, digits and dashes and neither begins nor ends with a dash |
| SlackWords.SkillIdIff | src/modelfleet/slack.py:95 | a skill passes iff it begins with a small letter or digit and goes on with these, dots, underscores and dashes |
| SlackWords.HelpIff | src/modelfleet/slack.py:78-82 | "help" and the question mark ask for help, and nothing else that has words |
| SlackWords.StatusWords | src/modelfleet/slack.py:83-84 | "status", "list" and "ls" ask for the status, of the namespace that follows |
| SlackWords.CostWords | src/modelfleet/slack.py:85-86 | "cost", "expenses" and "spend" ask for the cost |
| SlackWords.SnapshotWords | src/modelfleet/slack.py:87-88 | "snapshot" and "picture" ask for the snapshot |
| SlackGrammar.RoundTripIff | src/modelfleet/slack.py:69-130 | the printed form of a command whose target needs no quoting parses to that command iff the grammar speaks its pair of kind and verb and the name is a DNS label; otherwise it is rejected |
| SlackGrammar.ShortFormIff | src/modelfleet/slack.py:101-130 | the form without a namespace names the service in the default namespace iff the name is none of the four kind words |
| SlackGrammar.RunRoundTripIff | src/modelfleet/slack.py:91-99 | a run text parses to its skill and prompt iff the skill is an identifier and there is a prompt |
| SlackGrammar.ButtonIff | src/modelfleet/slack.py:367-392 | a button's value parses to the command its label names iff the resource name is a DNS label |
| SlackGrammar.SpokenPoisonIff | src/modelfleet/slack.py:249-254 | which commands can be typed and enqueued and then stop the worker: exactly training with an inference verb |
| PrometheusLabel.PassesAreOneEscape | sdk/go/agent/agent.go:107-111 | three successive replacements equal one escape per character, for every string |
| PrometheusLabel.LabelRoundTrip | sdk/go/agent/agent.go:107-111 | the escaped label reads back as the name, and holds no raw newline and no unescaped quote |
| PrometheusLabel.LabelInjective | sdk/go/agent/agent.go:107-111 | two names never share a label |
| AgentPipeline.StepKeeps | src/modelfleet/supervisor.py:145-161 | every step of submission, worker and consumer, with every failure, keeps the invariant |
| AgentPipeline.ResultsAccountForTasks | src/modelfleet/agent_runtime.py:101-113 | for every run: a result names a created task, a committed task has a result unless an answer was given up on, results are bounded by commits and crashes, a terminal phase is the outcome of a published result |
| AgentLosses.LossesAccountedFor | src/modelfleet/agent_runtime.py:101-113 | for every run: a committed task has a result iff one of its answers reached the log, else an answer to it was given up on; a task marked routed is in a log iff its message was not given up on |
| AgentLosses.HistoryOfLane | src/modelfleet/agent_runtime.py:101-113 | the restarts of a worker and the answers that reached the log or were given up on are those of the steps of the run |
| AgentLosses.HistoryOfDrops | src/modelfleet/supervisor.py:149-161 | the task messages given up on are those of the steps of the run |
| AgentLosses.CommittedWithoutResult | src/modelfleet/agent_runtime.py:106-113 | a run that commits a task without a result, for every task |
| AgentLosses.RoutedNeverLogged | src/modelfleet/supervisor.py:149-161 | a run that leaves a task routed that is in no log; in every continuation it stays routed and never has a result |
| AgentLosses.AbandonedForGood | src/modelfleet/supervisor.py:145-161 | a run that leaves a task without a phase for good: its submission ended before the message; only deletion ends it |
| AgentPhases.PhaseIsFinalIff | src/modelfleet/supervisor.py:199-255 | the phase of a task can never change again iff its submission has ended, nothing of it is queued or uncommitted, and no unread result says otherwise |
| AgentPhases.TerminalStaysIff | src/modelfleet/supervisor.py:199-255 | a terminal phase stays terminal under every redelivery iff the submission has ended |
| AgentPhases.LateMarkSticks | src/modelfleet/supervisor.py:145-161 | a run in which the routed mark overwrites an applied and committed result, for good |
| AgentWorker.ReplyCodes | sdk/go/agent/agent.go:211-229 | the code of a reply iff its case: -32600 no valid task, -32601 no handler for the skill, -32000 the handler's error, none its success |
| AgentWorker.Worker.Process | sdk/go/agent/agent.go:211-229 | the reply carries the id of its message; the gauge is back where it was and one counter has grown iff a handler ran |
| AgentWorker.Worker.Run | sdk/go/agent/agent.go:191-209 | replies are published in task order, every committed task after its reply, at most one published task uncommitted, and which failure left it so |
| AgentMetrics.GaugesAccountForHandlers | sdk/go/agent/agent.go:72-92 | with the gauges in place, in every interleaving active = in flight + panicked and begun = active + completed + failed |
| AgentMetrics.GaugesConserve | sdk/go/agent/agent.go:80-92 | also where allocations race: over all gauges ever allocated, active adds up to in flight + panicked, the counts to the handlers begun, and failed to those that ended with an error |
| AgentMetrics.SensibleIff | sdk/go/agent/agent.go:184-189 | the exported gauge is never negative in any run iff the gauges exist before the threads start |
| Quotas.AtMostIff | src/modelfleet/cloud_quotas.py:115 | the comparison of floats: numbers by value, infinities at the ends, never true of a NaN |
| Quotas.AwsQuota.Ask | src/modelfleet/cloud_quotas.py:100-148 | a request is opened iff the value is above the quota and no open request covers it; otherwise the first pending or case-opened request of at least that value is named |
| Quotas.OpenRequestsIncrease | src/modelfleet/cloud_quotas.py:110-130 | in every run an open request made here strictly exceeds every open one before it, iff neither is a NaN |
| Quotas.RepeatOpensIff | src/modelfleet/cloud_quotas.py:122-138 | whatever happens in between, a repeated command whose request is open passes the guards again iff its value is "nan" |
| Quotas.ParseDimensions | src/modelfleet/cloud_quotas.py:57-63 | the loop succeeds iff every argument is key=value, with the sorted permutation of the pairs |
| Quotas.ParseDimensionIff | src/modelfleet/cloud_quotas.py:58-62 | an argument is a dimension iff it is key=value, neither empty and no equals sign in the key |
| Quotas.DimensionOrderIsIrrelevant | src/modelfleet/cloud_quotas.py:30-81 | every reordering of the dimension arguments gives the same command |
| Quotas.GcpRoundTripIff | src/modelfleet/cloud_quotas.py:30-81 | the words of a command parse back to it iff the project is a number and the value is not known to be at most zero |
| Quotas.DigestNamesTarget | src/modelfleet/cloud_quotas.py:176-184 | two commands without a bar anywhere share the digested text only when service, quota and dimensions agree |
| Quotas.NameIsUniqueIff | src/modelfleet/cloud_quotas.py:176-184 | no command for another target shares the digested text iff there are no dimensions and no bar in service and quota |

## Left out

- Kafka, Kubernetes, Slack, Grafana, Prometheus, cloud and MLflow clients: nondeterministic steps that succeed, fail, or take effect and raise.
- The real API server's strategic merge of typed lists; the merge patch the source names (`src/modelfleet/operator.py:45`) is used.
- Time stamps, UUIDs, random jitter and `float` parsing are parameters; SHA-256 is an abstract naming function, and its cut to a few hex digits is not modelled.
- JSON numbers are whole numbers; a schema version of 1.0, which Python also accepts, is outside the model.
- Integers too large to convert to a float, for which the requirement raises OverflowError; a GPU count beyond 2^53, whose conversion rounds; results below the normal range of floats.
- Strings with a lone surrogate, which a Dafny character cannot hold: such an `id` of an invalid command makes the key's encoding raise outside the worker's handlers (`src/modelfleet/kafka.py:127`), so this message stops its partition like the poison of Delivery does.
- Overlapping passes over one InferenceService or TrainingRun: Suspension and Cancellation assume that the operator framework runs the change handlers of one object one after the other; the timers of these kinds only refresh the status. Handlers of one agent registration do overlap in AgentOverlap.
- AgentScaling.Namespace.RunSchedule: assumes that the read and the patch of a pass are one step; AgentOverlap.OverlapBounded does without.
- Requests of a pass that ended which take effect only later: a request takes effect while its pass waits for it, or never.
- Producers that key a command by something else than its workload; the delivery machine assumes the key `Publisher.enqueue` gives.
- Errors of the Kubernetes client that are no API errors (a broken connection): they end the process, with or without effect, like a crash.
- Rebalances with two live owners of a partition, and direct patches by people or the fleet agent racing with Kafka replay.
- The mapping of "KEDA is not installed" to a temporary error; it is one of the raised endings.
- Status patches of the controllers except where a phase is returned.
- Fields the builders copy unchanged (images, ports, labels, owners, tolerations), the model environment variables of `_container`, init containers. `build_deployment` makes its pod by the same steps as `build_training_job` without datasets; only the latter is modelled on the heap.
- Node-affinity operators Gt and Lt, which need the label as a number.
- Unicode: `lower`, `strip` and `isdigit` are those of ASCII, and white space is blank, tab, carriage return and newline.
- Supervisor.submit and consume_results as methods: what matters is how their calls interleave, so each call is a step of `AgentPipeline`.
- AgentPipeline: results for tasks of another supervisor appear as results whose task has been deleted; both are the ignored 404.
- Malformed agent tasks and results on the Python side, which end the process; the supervisor is the only producer of tasks.
- Concurrent quota commands: a read and a request of one command are one step, so two commands that read before either requests are not covered, nor is a history longer than one page.
- GCP quota preferences beyond their names: that request can also lower a preference, and nothing in it compares with the granted value.
- The arguments of a `quota aws` command: `Quotas.AwsQuota.Ask` starts from the parsed value.
- Durations of handlers, HTTP routing, bearer tokens, gateway route selection, cost reports, tracing: input and output or easy members.
- Suspension.SuspendedStaysAsleep: assumes no autoscaler step between the Deployment patch and the deletion of the scaler, which the code does not prevent; Suspension.AsleepDespiteDisturbanceIff says what happens otherwise.
- Placement.PlacementMeaning: assumes that no required term without requirements is rewritten; Placement.EmptyTermWidens says what happens otherwise, and Placement.MeaningKeptIff has the exact condition.
- Datasets.MountsResolve: assumes that volume names of different datasets differ and that no user volume has one of them.
