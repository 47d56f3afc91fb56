# A verified model of JGO

JGO is a Go service framework with a code generator. This Dafny project models the parts of it whose correctness
is hard to see by reading, and proves what they promise:

- **Rollback of a file tree.** `FileTree` is a file system with directories, files, modes and symbolic links, and the
  system calls the generators use, link resolution included. `Snapshots`, `Rollback` and `Generators` are the snapshot
  and the six-phase restore around the project generators, on any tree whatsoever, with the reasoning about its phases
  and loops in `Phases` and `Turns`. `Straying` says which places a call can reach through links, `Shelter` which places
  a restore therefore spares, and `Outside` what it writes through links outside the managed region. `Mirror`,
  `MirroredCalls` and `Reflection` show that, when links stand above managed paths, each call acts on what the managed
  names show as on a tree of its own; `LinkExamples` holds concrete trees. `Transactions`, `Mutations` and
  `CommittedFiles` are the transactional file updates of the binding commands and what they leave; `OutputCommit` is the
  all-or-nothing writing of the OpenAPI outputs.
- **Concurrent protocols.** `Drain`, `Lifecycle` (with the class `App.Application`), `Readiness` and `TimeoutBuffer`
  are step machines: every atomic operation or locked section is one step, the steps of any number of goroutines
  interleave freely, and a result about a run is a result about every interleaving. `DrainProgress`,
  `LifecycleProgress`, `ReadinessReports` and `TimeoutOutcomes` are the other half: that nobody is stuck, what is waited
  for, and that every good outcome stays possible.
- **The binding manifest.** `Bindings` is the validator, `Canonical` the canonical order, `Manifests` what each command
  makes of the manifest, `Projects` the commands themselves with their loops and the in-place compaction, `Runs` what
  every run keeps, `Verdicts` exactly when each command is accepted and why it is refused otherwise, `Stability` what
  no command can change, `Commuting` the laws between two operations (with an example that meets their assumptions),
  `Permuting` the law for any list of fresh binds in any order, `ModuleSpecs` the module references.
- **Names and translation.** `Naming` is the snake-case file naming, `FieldNames` the Go fields and default names,
  `Aliases` the import-alias search, `ServiceStubs` the planning of service stubs, `Schemas` the translation of Go model
  types to OpenAPI schemas, `Decoding` its soundness against the decoding rules of encoding/json, and `Acceptance`
  exactly what the schemas accept.
- **The error catalog.** `Catalog` is the two-index table, its merge laws and the RPC round trip through int32.
  `Text` holds the string operations they share.

Code that changes things step by step is a method or a class proved against a specification function or predicate;
the properties are then proved about that specification. Foreign code (the `go` command, the generators, rendering,
parsing, the network) appears as a parameter that may do anything its row below allows. The commands of `Projects` take
the success of their file mutation as a parameter; `Mutations.Execute` is that mutation on the file tree.

## What turned out not to hold

- The restore does not bring the region back when an originally regular file has become a link, because writing a file
  follows the link; and not when an originally present managed path hangs below a regular file or a link.
  `Rollback.Workspace.Restore` proves that these are the only cases, and that they do defeat the restore when no link
  leads to what stands in its way. `LinkExamples.LinkForFileStays` gives one such tree.
- A link above a managed path that still leads to a directory is no obstacle to what the managed names show: they show
  the same again if no name that showed a file shows a link and the places are apart (`Generators.RunProjectGenerators`,
  `LinkExamples.LinkAboveIsNoObstacle`).
- The restore does not always spare what lies outside the region. Where a link stands at a recorded file, the recorded
  file is written to the place the link leads to (`LinkExamples.LinkForFileOverwrites`: a file of the user is
  overwritten). Where a link stands above a managed path, the restore removes and writes through it
  (`LinkExamples.LinkAboveLosesOutside`: a file of the user is lost although the region comes back). Without links above
  managed paths and at recorded files everything outside is kept. Without links above managed paths, but with links at
  recorded files that lead directly out of the region, each to a place of its own, it is kept exactly if each of them
  leads to a copy of its recorded file. With links above managed paths, everything outside that no link leads to is
  kept.
- The one-slot wake-up channel of the drain serves one waiter. With two concurrent callers of `Stop` one of them can
  sleep while the counter is zero and nobody is left to notify; `Drain.WakeupsAreSafeForOneCaller` states that at most
  one caller is exactly the safe case. Safety of the drain does not depend on it.
- The schemas are not sound for every tag. A tag such as `json:"-,"` (which encoding/json
  reads as the key `-`), a tag name that encoding/json refuses, or the `string` option makes the schema accept values
  that do not decode. `Decoding.OneFieldIsSoundExactly` states the exact condition on the tag.
- The schemas take less than Go does: an `int` beyond 32 bits, and the null that a nil slice or map is written as, are
  refused (`Acceptance.NarrowerThanGo`). `Acceptance.AcceptsExactly` states what is accepted, for every type and value.
- Binding a bound service again under the handler name it already has is refused when that name has an underscore, as a
  default handler name can have, because the name that is asked for loses it. `Verdicts.RebindUnderSameName` states that
  this is the only such refusal.
- A client name such as `_1` is accepted although its Go field would begin with a digit;
  `FieldNames.FieldIsUsableExactly` states when a field is usable. A service called `Service` has no valid default
  client name (`FieldNames.DefaultClientExactly`).
- Different method names can share a file. For bindings they do exactly when they agree after every underscore before a
  lower-case letter, with that letter, becomes the capital (`Naming.SnakeCollidesExactly`, `GetItem` and `Get_item`).
  For local service methods without underscores they do exactly when they agree but for case and their words begin at
  the same places (`ServiceStubs.PlainNamesCollideExactly`, `GetURL` and `GetUrl`). Both are caught before anything is
  written, and the conditions say which manifests and which method sets are refused.
- An import alias can equal one of the two names under which the generated transport file imports tracing packages.
  `Aliases.ImportedNameIsAliasExactly` states when.
- The rollback of the OpenAPI outputs takes any writer as an argument. It brings contents back, but not a mode that the
  failing write itself changed; the program's own writers change none, and with them modes are back too
  (`OutputCommit.AtomicWritesKeepModes`).

## Model

| member | source | states |
|---|---|---|
| Snapshots.TakeSnapshot | internal/command/development.go:140-224 | on any tree: the snapshot is taken exactly when every managed name can be inspected, shows no link, and shows links below it only under internal/service; it records exactly what those names show, which without links above them is the managed region |
| Snapshots.ViewIsRegion | internal/command/development.go:140-224 | without links above managed paths, what the managed names show is the managed region of the tree |
| Snapshots.CapturedRegionsAgree | internal/command/development.go:131-138 | a snapshot determines the managed region: another tree has the same snapshot if and only if its region is the same |
| Snapshots.CapturesIsCoherent | internal/command/development.go:140-224 | every snapshot of a tree, or of what its managed names show, is closed under managed ancestors and its three tables are disjoint |
| Rollback.Workspace.Prune | internal/command/development.go:242-282 | phase 1, on any tree: only removes nodes, makes every originally absent managed name show nothing, leaves no unrecorded file or link at or below a managed path, and spares what no link leads to; without links above managed paths nothing outside is touched |
| Rollback.Workspace.RemoveExtraDirectories | internal/command/development.go:283-316 | phase 2, deepest first, leaves only recorded directories, whatever kinds were swapped, if no link stands above an originally present managed path; on any tree it only removes nodes and spares what no link leads to |
| Phases.SortDeepestFirst | internal/command/development.go:309-311 | a duplicate-free list of the given paths by falling depth, ties in any order |
| Rollback.Workspace.RestoreDirectories | internal/command/development.go:317-336 | phases 3 and 4 make every recorded directory with its mode and disturb nothing else; on any tree no node changes its kind and what no link leads to is spared |
| Rollback.Workspace.RestoreFiles | internal/command/development.go:337-350 | phase 5 writes every recorded file with contents and mode when no recorded file is a link; on any tree no node changes its kind and what no link leads to is spared |
| Rollback.Workspace.RestoreLinks | internal/command/development.go:351-367 | phase 6 puts every recorded link back and disturbs nothing else; on any tree it spares what no link, old or recorded, leads to |
| Rollback.Workspace.Restore | internal/command/development.go:240-369 | on any tree the generators left: the region is back exactly as captured if no original file is now a link and no originally present managed path is below a file or a link, and only if so when there is no link above a managed path or when no link leads to the obstacles; without links above managed paths and at recorded files nothing else changes but recreated ancestors, and with links at recorded files that lead out of the region nothing else changes but the places they lead to, which hold the recorded files; with links above managed paths that still lead to apart places, the managed names show again what was recorded and only those places change; every place outside that no link leads to is spared; without links above managed paths and at recorded files an error is reported exactly when a managed path is blocked |
| Phases.WitnessSurvives | internal/command/development.go:337-350 | the only-if half without links above managed paths: an obstacle found before the restore is still an obstacle after all phases |
| Phases.ObstacleStays | internal/command/development.go:240-369 | the only-if half with links above managed paths: when no link leads to an obstacle, it is still there after the restore and the region is not back |
| Phases.NeverCapturedBelowLink | internal/command/development.go:240-369 | one link above an originally present managed path, to which no link leads, is still there after the restore, nothing lies at that path, and the region is not back |
| Phases.LinkAboveLoses | internal/command/development.go:242-248 | whatever a link above an originally absent managed path leads that path to is gone once the path shows nothing, inside the region or outside |
| Straying.LocateAvoids | internal/command/development.go:240-369 | a path resolution that ends at a place no link leads to, or above it, crossed no link |
| Outside.FileThrough | internal/command/development.go:337-350 | where a link stands at a recorded file and leads directly to a file or a free place, rewriting that file changes that place, to the recorded contents and mode, and nothing else |
| Outside.OutsideKeptExactly | internal/command/development.go:337-350 | when such links lead out of the region to different places, the outside is kept if and only if each leads to a copy of its recorded file |
| Mirror.Through | internal/command/development.go:240-369 | a managed name with no link above it below its managed path resolves below the place that path leads to exactly as it resolves in the tree of the managed names, errors included |
| MirroredCalls.RewriteMirrors | internal/command/development.go:337-350 | rewriting a file through links above its managed path acts on what the managed names show as on a tree without such links, changes nothing but at and below their places, and reports the same error |
| MirroredCalls.RelinkMirrors | internal/command/development.go:351-367 | the same for putting a link back |
| Reflection.BackBehind | internal/command/development.go:240-369 | over all six phases with links above managed paths: the managed names show again exactly what was recorded, and nothing changed but at and below the places they lead to |
| Generators.RunProjectGenerators | internal/command/development.go:72-124 | with generators that leave any tree whatsoever: exactly the selected ones run, in the order http, protobuf, bindings, each on what the one before left, up to the first that fails; the run succeeds if and only if the tree was acceptable, every selected generator succeeded and the output was printed; success keeps their tree; a refused snapshot changes nothing; a failure gives back the original region exactly when it can come back if no link stands above a managed path, gives it back when it can and no link stands above an originally present one; it makes the managed names show exactly what they showed before, also through links that stood above them, when each still leads to a place of its own and no name that showed a file shows a link; everything outside that no link leads to is spared |
| Generators.PathsAreSeparate | internal/command/development.go:141-149 | no managed path lies inside another |
| LinkExamples.LinkForFileStays | internal/command/development.go:337-350 | a concrete tree in which go.mod became a link cannot come back |
| LinkExamples.LinkForFileOverwrites | internal/command/development.go:337-350 | the whole restore of that tree overwrites a file of the user, outside the region, with the old go.mod |
| LinkExamples.LinkAboveLosesOutside | internal/command/development.go:242-248 | a concrete tree in which gen became a link: the restore removes a file outside the region although the region comes back |
| LinkExamples.LinkAboveIsNoObstacle | internal/command/development.go:240-369 | a concrete project with gen a link before and after, whose generators changed what gen/http shows, meets the conditions under which it shows the same again |
| Transactions.InspectManagedPath | internal/generator/rpcbinding/binding.go:1127-1158 | the walk accepts exactly regular files and absent paths with only directories above them; links, directories and blocked paths are refused |
| Transactions.Store.Capture | internal/generator/rpcbinding/binding.go:1098-1114 | the snapshot is refused exactly when some declared path is refused, else it records contents, mode and existence of every declared path |
| Transactions.Store.RestoreFiles | internal/generator/rpcbinding/binding.go:1160-1187 | from any tree and in any order of the map: each declared path that is accepted returns to its state, nothing else changes but new directories above declared paths, and an error is reported exactly when a declared path is refused |
| Transactions.RestoreOneMeans | internal/generator/rpcbinding/binding.go:1162-1185 | one turn of the restore loop never fails on an accepted path and gives it its contents, mode and existence |
| Transactions.ScriptStaysTouched | internal/generator/rpcbinding/binding.go:1095-1096 | a mutation that writes only declared paths changes only them, adds only directories, and leaves every declared path acceptable |
| Transactions.Store.MutateFiles | internal/generator/rpcbinding/binding.go:1097-1122 | committed exactly when no declared path is refused and every step of the mutation succeeds by its own outcome; whichever step fails, every file is back with contents and mode and the rollback reports no failure; a refused path changes nothing |
| Mutations.CommandsStayWithinDeclaredPaths | internal/generator/rpcbinding/binding.go:839-877 | bind, unbind, generate and the empty reconciliation write only paths of their declared lists |
| Mutations.DeclaredPathsArePrefixFree | internal/generator/rpcbinding/binding.go:729-738 | no declared path of a command lies below another |
| Mutations.Execute | internal/generator/rpcbinding/binding.go:930-963 | a command is committed in full exactly when no declared path is refused, no foreign step fails, and every directory and file it asks for could be made; else the project's files are as before |
| CommittedFiles.CommittedCommandIsDone | internal/generator/rpcbinding/binding.go:839-963 | after a committed command every file it has to write holds its rendered contents, handlers and stubs only where they were missing; go.mod and go.sum are as the go command left them or hold the added requirement; every other file is unchanged and only directories were added |
| OutputCommit.Disk.Commit | internal/generator/openapi/generate.go:104-140 | for any writer: after a failed write every output whose rollback can succeed has its old contents; the rollback reports no failure exactly when all can, and then all files and their modes are as before, if and only if the failing write did not itself change a mode |
| OutputCommit.AtomicWritesKeepModes | internal/generator/openapi/generate.go:402-428 | a failing write that leaves its path as it was, as the program's own writers do, spoils no mode, whichever outputs were written before it |
| OutputCommit.WrittenOutputs | internal/generator/openapi/generate.go:118-120 | after the writes every listed path holds the contents of its last listing, an existing file with its mode |
| OutputCommit.Disk.Rollback | internal/generator/openapi/generate.go:121-135 | the rollback loop restores exactly the outputs that can go back, also when a path is listed twice |
| Drain.CounterIsExact | server/grpcx/interceptors.go:187-203 | in every state of every run the counter is the number of requests between their increment and their decrement |
| Drain.DrainSafety | server/grpcx/interceptors.go:187-221 | once wait has returned nil after the drain began, no admitted handler runs then or ever after, for any number of requests and callers |
| Drain.LateRequestsStillCount | server/grpcx/interceptors.go:187-198 | a run in which a late request raises the counter after wait returned |
| Drain.WakeupsAreSafeForOneCaller | server/grpcx/interceptors.go:205-228 | in all runs a blocked caller with counter zero finds a token or a goroutine about to notify, if and only if there is at most one caller |
| Drain.LostWakeup | server/grpcx/interceptors.go:210-228 | for two or more callers, a run that loses a wake-up |
| Drain.WakesAreBounded | server/grpcx/interceptors.go:205-228 | once draining, wake-ups are bounded by the token, the requests in flight and the pending announcements, whatever requests arrive |
| DrainProgress.ForcedExactly | server/grpcx/server.go:205-208 | a caller ends with a forced stop exactly when its context ended while it waited, and stays so |
| DrainProgress.GracefulExactly | server/grpcx/server.go:205-210 | a caller stops gracefully exactly when it once found the counter at zero |
| DrainProgress.RetreatMeansDraining | server/grpcx/interceptors.go:187-198 | a request backs off only once the drain has begun |
| DrainProgress.LoadsAdmitExactly | server/grpcx/interceptors.go:187-198 | a request is turned away at its first or second load exactly when the drain has begun by then |
| DrainProgress.RequestIsNeverStuck | server/grpcx/interceptors.go:187-203 | every request that has not left has a step, which takes it on and touches nothing else |
| DrainProgress.StopperIsNeverStuck | server/grpcx/interceptors.go:205-221 | every caller that has not finished has a step; a blocked one can wake exactly when there is a token |
| DrainProgress.CanStopGracefully | server/grpcx/server.go:205-211 | from every state of every run with one caller that was not forced, the caller can still stop gracefully |
| DrainProgress.CanBeAdmitted | server/grpcx/interceptors.go:187-198 | before the drain begins a new request can be admitted |
| Lifecycle.ReadyIsTruthful | app/app.go:110-168 | ready is true only after every notifier signalled, before the first stop and before Run returns |
| Lifecycle.ReadyRisesOnce | app/app.go:151-163 | ready rises at most once and is false after Run returned |
| Lifecycle.PendingIsExact | app/app.go:112-150 | the pending count is the notifiers minus the signals received, and each component signals at most once |
| Lifecycle.CleanReturnStoppedAll | app/app.go:207-239 | without a shutdown-timeout error every component was stopped once in reverse order, whatever stops failed, and every Start goroutine has finished |
| Lifecycle.StopsAreReversed | app/app.go:211-225 | at every moment the stops so far and the one in progress are the last components in reverse order, one at a time |
| Lifecycle.SendersNeverBlock | app/app.go:110-134 | every goroutine that wants to send finds room in its buffered channel |
| LifecycleProgress.BarrierOpensExactly | app/app.go:138-151 | while main awaits the barrier, it can report ready exactly when the signal of every launched notifier has been received, and its next step then does |
| LifecycleProgress.MainIsNeverStuck | app/app.go:110-239 | until Run returns, main has a step unless it waits for a result, a missing startup signal or the end of its context, or at the end for the stopper or the deadline |
| LifecycleProgress.MainAdvances | app/app.go:110-239 | every step of main but a launch or the receipt of a signal takes it to a later phase, and no other step moves it |
| LifecycleProgress.StopperIsNeverStuck | app/app.go:211-225 | while main drains, the stopper has a step or waits for a Start goroutine that can itself go on |
| LifecycleProgress.DownAfterFirstResult | app/app.go:139-168 | main takes at most one result and is on its way down after it |
| LifecycleProgress.ReturnIsCleanExactly | app/app.go:226-239 | Run returns without a timeout error exactly when the deadline had not passed, and then the stopper had reported |
| LifecycleProgress.CanBecomeReady | app/app.go:110-151 | from every state before the barrier in which nothing is cancelled, the run can become ready |
| LifecycleProgress.EveryStartCanBecomeReady | app/app.go:110-151 | every application, with any components and notifiers, has a run that becomes ready |
| LifecycleProgress.CanReturnCleanly | app/app.go:160-239 | from every state before the deadline Run can still return without a timeout error |
| App.Application.Add | app/app.go:61-84 | a component is added exactly when it is named, its trimmed name is new and the application has not started; otherwise the first failing check, in this order, decides the error: nil component, blank name, already started, duplicate name |
| App.Application.BeginRun | app/app.go:179-199 | an application runs at most once, and only with a name, a positive timeout and a component; the first check that fails decides the error |
| Readiness.SingleFlight | readiness/readiness.go:44-58 | over any number of concurrent checks each dependency has at most one checker goroutine, and its flag is set exactly while there is one |
| Readiness.SendsNeverBlock | readiness/readiness.go:109-123 | a result always finds room in its channel, even after its check returned at the deadline |
| Readiness.ReportIsExact | readiness/readiness.go:90-137 | a report lists exactly the dependencies of its check, is ready exactly when every required one is, and an entry is ready only if this check's own checker returned no error |
| Readiness.EntriesAreFrozen | readiness/readiness.go:94-104 | the dependencies of a check are those registered when it began |
| ReadinessReports.CompleteReportIsExact | readiness/readiness.go:90-160 | in a report returned because nothing was pending, a dependency is ready if and only if this check started its checker and it returned without error; the report is ready if and only if every required one is |
| ReadinessReports.DeadlineReportIsExact | readiness/readiness.go:124-160 | in a report returned at the deadline, a dependency is ready if and only if, in addition, its result had been received by then |
| ReadinessReports.HasReturnedExactly | readiness/readiness.go:105-123 | a worker is past its checker with a verdict exactly when the checker returned that verdict |
| ReadinessReports.ReadyMeansPassed | readiness/readiness.go:105-160 | in a complete report a dependency is ready exactly when this check's own call of its checker returned without error before |
| ReadinessReports.FoundRunningIsNeverReady | readiness/readiness.go:94-109 | a check starts the checker of a dependency exactly when it finds none running, and never reports one it found running as ready |
| ReadinessReports.CollectorIsNeverStuck | readiness/readiness.go:124-137 | a collecting check can return or receive, or waits for a goroutine of its own that can go on |
| ReadinessReports.EveryOutcomeCanBeReported | readiness/readiness.go:90-160 | for any registry and any set of failing dependencies there is a check that reports exactly the others ready |
| TimeoutBuffer.ReplayMeans | middleware/timeout/timeout.go:81-120 | the buffer holds the first status, all writes in order and the last value of each header key |
| TimeoutBuffer.BufferWriter.Write | middleware/timeout/timeout.go:90-100 | a write after the timeout mark fails and changes nothing; any other appends and fixes the status |
| TimeoutBuffer.ClientSeesOneReply | middleware/timeout/timeout.go:27-63 | in every interleaving the client has seen nothing, the complete response of a finished handler, or the timeout reply |
| TimeoutBuffer.SilenceHasACause | middleware/timeout/timeout.go:41-62 | nothing was sent only after a panic or a cancelled parent |
| TimeoutBuffer.ReplyIsFinal | middleware/timeout/timeout.go:41-62 | what the client has seen never changes |
| TimeoutBuffer.LateWritesAreLost | middleware/timeout/timeout.go:81-106 | after the timeout mark body and status stay as they are |
| TimeoutOutcomes.AnswerExactly | middleware/timeout/timeout.go:43-62 | when the middleware has returned, what it took decides: the handler's result gives the complete response, or nothing after a panic; the deadline gives the timeout reply; the cancellation gives nothing |
| TimeoutOutcomes.MainIsNeverStuck | middleware/timeout/timeout.go:43-62 | until it returns, the middleware has a step unless the handler still runs and the context has not ended |
| TimeoutOutcomes.EveryResponseCanBeGiven | middleware/timeout/timeout.go:43-48 | whatever a running handler still does, its complete response can reach the client |
| TimeoutOutcomes.DeadlineCanPass | middleware/timeout/timeout.go:49-59 | while the middleware waits, the deadline can still give the timeout reply, whatever has been written |
| Bindings.ValidateMethods | internal/generator/rpcbinding/binding.go:198-210 | accepts exactly exported method metadata with distinct names |
| Bindings.ClaimFiles | internal/generator/rpcbinding/binding.go:169-175 | succeeds exactly when the files are new and pairwise different |
| Bindings.ValidateManifest | internal/generator/rpcbinding/binding.go:144-196 | the map loops accept exactly the manifests whose bindings are well formed one by one and agree two by two in key, handler, files, name and field |
| Bindings.OwnFilesCollideExactly | internal/generator/rpcbinding/binding.go:258-272 | a binding with a valid handler name and valid methods is refused for its own files exactly when two of its method names agree after folding |
| Canonical.StrictIsUnique | internal/generator/rpcbinding/binding.go:1514-1525 | a strictly ordered list is determined by its elements |
| Canonical.AnySortIsCanonical | internal/generator/rpcbinding/binding.go:1518-1524 | whatever unstable sort is used, an ordered permutation of bindings with distinct keys is the canonical list |
| Canonical.CanonicalizeIsSound | internal/generator/rpcbinding/binding.go:1514-1525 | canonical order keeps the bindings, keeps validity in both directions and is idempotent |
| Canonical.CanonicalFormIsUnique | internal/generator/rpcbinding/binding.go:1514-1525 | canonical manifests with the same bindings are equal |
| Text.LessExactly | internal/generator/rpcbinding/binding.go:1514-1525 | the order of strings is the byte order: a proper prefix is less, and else the smaller character at the first difference |
| Projects.Project.BindServer | internal/generator/rpcbinding/binding.go:795-878 | the command computes its specification, and a refusal or failed mutation leaves the manifest |
| Projects.Project.BindClient | internal/generator/rpcbinding/binding.go:880-965 | the same for clients, with the scan that stops at the first clash and no validation of the result |
| Projects.Project.UnbindServer | internal/generator/rpcbinding/binding.go:970-1028 | the same for removal, through the in-place compaction |
| Projects.Project.UnbindClient | internal/generator/rpcbinding/binding.go:1030-1073 | the same for clients |
| Projects.Project.Generate | internal/generator/rpcbinding/binding.go:691-728 | the same for generate, with its two loops that resolve every entry again and stop at the first failure |
| Projects.CompactServers | internal/generator/rpcbinding/binding.go:994-1004 | compacting over the backing array keeps exactly the servers that do not match, in order |
| Projects.CompactClients | internal/generator/rpcbinding/binding.go:1039-1049 | the same for clients |
| Projects.Replace | internal/generator/rpcbinding/binding.go:813-824 | the scan replaces the first entry with the same key, keeps its handler, and refuses another handler name |
| Projects.BindingPackages | internal/generator/rpcbinding/binding.go:1680-1691 | packages in order of first occurrence, numbered aliases, different packages with different aliases |
| Runs.BindServerKeeps | internal/generator/rpcbinding/binding.go:814-838 | an accepted server bind leaves a valid canonical manifest |
| Runs.BindClientKeeps | internal/generator/rpcbinding/binding.go:908-929 | an accepted client bind leaves a valid canonical manifest although it is never validated |
| Runs.UnbindServerRemovesOne | internal/generator/rpcbinding/binding.go:979-1012 | refused exactly when ambiguous or not bound; else exactly one server goes, the others keep their order, and the result is valid |
| Runs.UnbindClientRemovesOne | internal/generator/rpcbinding/binding.go:1039-1054 | the same for clients |
| Runs.GenerateKeeps | internal/generator/rpcbinding/binding.go:706-728 | generate leaves a valid canonical manifest |
| Verdicts.BindServerExactly | internal/generator/rpcbinding/binding.go:802-838 | a service that is not bound is accepted if and only if its handler name, asked for or default, is usable and the longer server list is valid; each refusal has its own condition |
| Verdicts.RebindServerExactly | internal/generator/rpcbinding/binding.go:802-838 | a bound service is bound again, at any version, if and only if the handler name asked for is blank, or usable and the bound one, and the list with the entry replaced is valid; the entry keeps its handler and each refusal has its own condition |
| Verdicts.RebindUnderSameName | internal/generator/rpcbinding/binding.go:808-820 | binding again under the handler name that is bound is refused for that name exactly when it has an underscore |
| Verdicts.BindClientExactly | internal/generator/rpcbinding/binding.go:889-924 | a new client is accepted if and only if its name is valid, gives a field and no other client has that field; each refusal has its own condition |
| Verdicts.RebindClientExactly | internal/generator/rpcbinding/binding.go:908-929 | a client name in use is bound again if and only if service and package are those it was bound to; it keeps its address, and each refusal has its own condition |
| Verdicts.UnbindServerExactly | internal/generator/rpcbinding/binding.go:970-1012 | without a package a service bound more than once is ambiguous, what is not bound is refused as such, and everything else is accepted |
| Verdicts.GenerateExactly | internal/generator/rpcbinding/binding.go:706-728 | generate is accepted if and only if every entry could be resolved again and the refreshed bindings are valid; then each entry carries what was resolved, with its handler, or its name and address |
| Verdicts.NothingWithoutManifest | internal/generator/rpcbinding/binding.go:795-1054 | with a manifest that the validator refuses, every command is refused |
| Runs.EveryRunIsLoadable | internal/generator/rpcbinding/binding.go:144-196 | every run of the commands from the empty manifest, with refusals and failed mutations anywhere, ends in a manifest the validator accepts, in canonical order |
| Runs.OrderDoesNotMatter | internal/generator/rpcbinding/binding.go:1514-1525 | two runs that end with the same bindings end with the same manifest, hence the same package aliases |
| Stability.BindServerTouchesOne | internal/generator/rpcbinding/binding.go:814-835 | an accepted server bind leaves one entry under its key, the resolved binding with the handler it already had or the chosen one, and no other entry changes |
| Stability.BindClientTouchesOne | internal/generator/rpcbinding/binding.go:908-929 | an accepted client bind leaves one entry under its name, which keeps its service, package and address if it was bound, and no other entry changes |
| Stability.StepKeepsIdentity | internal/generator/rpcbinding/binding.go:706-1054 | no command changes the handler of a server that stays bound, or the service, package or address of a client that stays bound |
| Stability.HandlersAreFixed | internal/generator/rpcbinding/binding.go:817-819 | over any stretch of a run in which a service stays bound, its handler name is fixed |
| Commuting.FreshServersCommute | internal/generator/rpcbinding/binding.go:814-838 | two fresh server binds are accepted or refused alike in both orders, with the same manifest |
| Commuting.FreshClientsCommute | internal/generator/rpcbinding/binding.go:908-929 | the same for clients |
| Commuting.ServerAndClientCommute | internal/generator/rpcbinding/binding.go:795-965 | a server bind and a client bind commute, fresh or not |
| Permuting.ManyFreshBinds | internal/generator/rpcbinding/binding.go:795-929 | any list of fresh server and client binds is accepted as a whole exactly when their names are usable and the enlarged lists are valid, and then leaves the canonical manifest with those bindings added |
| Permuting.FreshBindsPermute | internal/generator/rpcbinding/binding.go:795-929 | any permutation of a list of fresh binds, of servers and clients mixed, is accepted or refused alike as a whole, with the same manifest |
| Commuting.RepeatedServerBind | internal/generator/rpcbinding/binding.go:814-838 | repeating an accepted server bind is accepted and changes nothing |
| Commuting.RepeatedClientBind | internal/generator/rpcbinding/binding.go:908-929 | repeating an accepted client bind is accepted and changes nothing |
| Commuting.UnbindUndoesServerBind | internal/generator/rpcbinding/binding.go:970-1012 | unbinding a fresh server by package restores the manifest; without the package, if and only if no other package has that service bound |
| Commuting.UnbindUndoesClientBind | internal/generator/rpcbinding/binding.go:1030-1054 | unbinding a fresh client restores the manifest |
| Commuting.ExampleBinds | internal/generator/rpcbinding/binding.go:795-929 | the assumptions of the laws can be met: a concrete resolved binding is fresh and accepted, as a server and as a client |
| ModuleSpecs.ModuleSpecRoundTrip | internal/generator/rpcbinding/binding.go:772-777 | splitting loses nothing but outer white space, and the spec rebuilt from a stored binding splits into the same module and version |
| ModuleSpecs.SplitExactly | internal/generator/rpcbinding/binding.go:1251-1268 | a reference is split at its last at sign, and refused exactly when nothing stands before or after it |
| ModuleSpecs.NoVersion | internal/generator/rpcbinding/binding.go:1251-1259 | without an at sign it is a path without a version |
| Naming.SnakeLoop | internal/generator/rpcbinding/binding.go:1798-1808 | the loop computes the recursive definition used below |
| Naming.SnakeRoundTrip | internal/generator/rpcbinding/binding.go:1798-1808 | undoing snake on any exported name gives the folded name, in which every underscore before a lower-case letter has become the capital; the name itself when there is no such underscore |
| Naming.SnakeCollidesExactly | internal/generator/rpcbinding/binding.go:1798-1808 | two exported names have the same snake name if and only if they fold alike |
| Naming.SnakeIsInjective | internal/generator/rpcbinding/binding.go:1798-1808 | hence different exported names with no underscore before a lower-case letter have different snake names |
| Naming.SnakeJoins | internal/generator/rpcbinding/binding.go:258-260 | joining with an underscore is the snake name of the concatenation |
| Naming.FilesCollideExactly | internal/generator/rpcbinding/binding.go:258-272 | for all exported names: stub and declaration files collide exactly when the folded handler type and method name concatenate equally |
| Naming.FoldedFilesCollideExactly | internal/generator/rpcbinding/binding.go:258-272 | with no underscore before a lower-case letter: exactly when handler type and method name concatenate equally |
| Naming.OneBindingCollidesExactly | internal/generator/rpcbinding/binding.go:258-272 | the files of one binding are pairwise different if and only if no two of its methods fold alike |
| Naming.OneBindingNeverCollides | internal/generator/rpcbinding/binding.go:258-272 | distinct methods with no underscore before a lower-case letter get different files |
| Naming.UnderscoreNamesCollide | internal/generator/rpcbinding/binding.go:1798-1808 | an example: two different exported names that fold alike and share a file |
| Naming.DefaultHandlerIsValid | internal/generator/rpcbinding/binding.go:228-252 | the default handler name of an exported service name passes the handler-name check |
| FieldNames.DefaultHandlerExactly | internal/generator/rpcbinding/binding.go:228-246 | the default handler is the service name without its ending, Service, Handler or both, and RPC exactly for the names that would still end in Handler |
| FieldNames.AskedNameExactly | internal/generator/rpcbinding/binding.go:248-254 | asking for a valid handler name asks for that very name exactly when it has no underscore |
| FieldNames.ExportedExactly | internal/generator/rpcbinding/binding.go:1778-1789 | a field keeps every character of the name but the separators, in order, and raises exactly those that begin a part |
| FieldNames.NothingLeft | internal/generator/rpcbinding/binding.go:1778-1789 | a name gives no field exactly when it has only separators |
| FieldNames.FieldIsUsableExactly | internal/generator/rpcbinding/binding.go:889-895 | a valid client name gives a usable Go field if and only if its first character that is not an underscore is a letter |
| FieldNames.DigitFieldIsNotUsable | internal/generator/rpcbinding/binding.go:889-895 | an example: a name that is accepted although its field begins with a digit |
| FieldNames.DefaultClientExactly | internal/generator/rpcbinding/binding.go:1774-1777 | the default client name of an exported service is valid, with a usable field, exactly when the service is not called Service |
| Aliases.TriedAreFew | internal/generator/protobuf/generate.go:631-633 | pigeonhole: a finite set holds no more candidates than it has elements |
| Aliases.FirstFree | internal/generator/protobuf/generate.go:631-633 | the search ends with the first candidate that is not used |
| Text.DecimalExactly | internal/generator/protobuf/generate.go:631-633 | the numeral in a numbered alias stands for its number and has no leading zero |
| Aliases.AssignUniqueAliases | internal/generator/protobuf/generate.go:615-638 | two services share an alias exactly when they share an import path, no alias is reserved, the first service of an import path gets the first free candidate, and nothing else in the slice changes |
| Aliases.ImportedNameIsAliasExactly | internal/generator/protobuf/generate.go:738-753 | a name that is not reserved and does not end in a digit, as the imported "trace" and "attribute", becomes an alias exactly when some import path is first met with a package of that name |
| Aliases.TracePackageCollides | internal/generator/protobuf/generate.go:615-638 | a single protobuf package called trace gets the alias trace, which the generated file imports already |
| ServiceStubs.SnakeCaseLoop | internal/generator/protobuf/generate.go:793-803 | the loop computes the definition that the next rows characterise |
| ServiceStubs.SnakeCaseCollidesExactly | internal/generator/protobuf/generate.go:793-803 | for all names: the same file name if and only if they have the same letters in lower case, with the same number of underscores and word beginnings before each and the same underscores at the end |
| ServiceStubs.PlainNamesCollideExactly | internal/generator/protobuf/generate.go:793-803 | without underscores: the same file name if and only if the names agree but for case and their words begin at the same places |
| ServiceStubs.WellSpacedNamesDiffer | internal/generator/protobuf/generate.go:793-803 | different exported names in which every later capital begins a word get different files |
| ServiceStubs.InitialismsCollide | internal/generator/protobuf/generate.go:793-803 | an example: two different service methods with the same words, one of them not well spaced, that share a file |
| ServiceStubs.Plan | internal/generator/protobuf/generate.go:651-688 | planning succeeds exactly when the new methods have pairwise different files and none of them exists |
| ServiceStubs.PlannableExactly | internal/generator/protobuf/generate.go:651-688 | a set of new methods can be planned exactly when no two have the same letters and words and none of their files exists |
| ServiceStubs.WellSpacedIsPlannable | internal/generator/protobuf/generate.go:651-688 | when every new method is well spaced, planning fails only for a file that already exists |
| ServiceStubs.ServiceDirectory.CreateStubs | internal/generator/protobuf/generate.go:640-698 | nothing is written unless the whole plan is free of conflicts; no file is replaced and each new method gets one file of its own |
| Schemas.BuildSchema | internal/generator/openapi/model.go:148-197 | the recursion computes the specified schema |
| Schemas.BuildStruct | internal/generator/openapi/model.go:112-146 | the field loop computes the specified properties and required names, failing on the first unsupported field |
| Schemas.BuildComponents | internal/generator/openapi/model.go:87-110 | every model becomes a component, or all fail because one is unsupported |
| Acceptance.BuiltExactly | internal/generator/openapi/model.go:112-197 | a schema is built if and only if the type is supported: a primitive or a known model, a pointer, array or string map of a supported type, time.Time, or a struct whose contributing fields are supported and none is embedded |
| Acceptance.ComponentsExactly | internal/generator/openapi/model.go:87-110 | all models get a component if and only if all are supported |
| Acceptance.PropertiesExactly | internal/generator/openapi/model.go:112-146 | whatever the tags: a property for every JSON name, from the last field that has it, and required if any field demands it |
| Acceptance.AcceptsExactly | internal/generator/openapi/model.go:112-197 | the schema of a supported type, through mutually recursive models, accepts a JSON value if and only if it has the form of the type: numbers within the range of their format, arrays of any length, string maps, date-time strings, null exactly for a pointer that does not lead to a model, objects with every demanded name |
| Acceptance.MarksExactly | internal/generator/openapi/model.go:149-155 | a schema is marked nullable exactly for a pointer that does not lead to a model |
| Acceptance.FormatsExactly | internal/generator/openapi/model.go:156-159 | the schemas of the primitives tell them apart but for int and int32, with the format of their width |
| Acceptance.NarrowerThanGo | internal/generator/openapi/model.go:112-197 | values that decode and are refused: an int beyond 32 bits, and null for an array or a map |
| Decoding.MembersMean | internal/generator/openapi/model.go:112-146 | the properties are exactly the JSON names of the unskipped fields with their schemas, and the required names exactly those that are neither pointers nor omitempty |
| Decoding.SchemasAreSound | internal/generator/openapi/model.go:112-197 | every JSON value accepted by the schema of a supported type, through mutually recursive models, decodes into it, with a value for every field that is neither a pointer nor omitempty |
| Decoding.OneFieldIsSoundExactly | internal/generator/openapi/model.go:199-225 | for every tag on a primitive field: the schema is sound if and only if the tag is faithful |
| Decoding.DashCommaIsUnsound | internal/generator/openapi/model.go:213-215 | the tag "-," with a value that the schema accepts although the field is missing |
| Catalog.NewCatalog | errors/catalog.go:37-61 | accepts exactly proper definitions with distinct codes and names, and both indexes hold the same definitions |
| Catalog.Definitions | errors/catalog.go:92-102 | the definitions in ascending code order, each once |
| Catalog.MergeCatalogs | errors/catalog.go:74-80 | succeeds exactly when all codes and names are pairwise disjoint, with the union of the tables |
| Catalog.RebuildIsIdentity | errors/catalog.go:37-102 | rebuilding a catalog from its listing gives the same catalog |
| Catalog.ListingIsUnique | errors/catalog.go:92-102 | there is one ascending listing |
| Catalog.MergeCommutes | errors/catalog.go:74-80 | merging commutes, refusals included |
| Catalog.MergeAssociates | errors/catalog.go:74-80 | merging is associative, refusals included |
| Catalog.MergeIdentity | errors/catalog.go:74-95 | nil is the identity, and a catalog merges with itself only if it is empty |
| Catalog.MergedLookup | errors/catalog.go:74-118 | a merge finds, by code and by name, exactly what one of its parts finds |
| Catalog.DefinedIsFound | errors/catalog.go:104-118 | by code, by the name as it was defined and by the trimmed name, the lookups find exactly the definitions the catalog was made of |
| Catalog.NewIsPresentable | errors/errors.go:37-50 | every error that New builds has a positive int32 code, a message and a status from 400 to 599 |
| Catalog.NewExactly | errors/errors.go:37-50 | New builds exactly what it is asked for, with the last status option or 500, when that can be presented, and the internal error otherwise |
| Catalog.PublicValuesArePresentable | errors/errors.go:109-117 | public values of any wrapping are presentable and never come from a foreign error |
| Catalog.PublicValuesExactly | errors/errors.go:109-117 | the public values are those of the first service error of the chain, and the internal triple when that one is nil or there is none |
| Catalog.ResponseRoundTrip | errors/catalog.go:131-143 | an error built by New comes back from the int32 response field with its code, its message and the catalog's status or 500 |
| Catalog.FromCodeOnEveryInput | errors/catalog.go:131-143 | for every int32: nil only for 0, the internal triple for negatives, and for a positive code that code with the catalog's status or 500 and the trimmed message, else the catalog's, else the internal one |

## Left out

- Real I/O, TLS, gRPC, HTTP, telemetry and the wall clock: only the events they produce; deadlines happen at any time.
- Parsing and rendering of Go, protobuf, YAML and JSON: the model starts from parsed types and methods, and rendered contents are parameters. Saving and loading the manifest is taken to be lossless.
- Unicode case tables and letters: names are ASCII; white space is Unicode's.
- App.Run joins the error of the result it took and the errors of the stops; only whether a timeout error is among them is modelled.
- Special files (devices, sockets), permission failures, the umask, hard links and concurrent changes of the tree by other processes.
- Link targets are kept in cleaned form, and a path resolution gives up after forty links as Linux does.
- Rollback.Workspace.Restore: with a link above a managed path, what is lost outside the region is not determined exactly: places that no link leads to are spared, and Phases.LinkAboveLoses says what a link above an absent path loses. When some link leads to an obstacle, the restore may remove it, and only the if-half is stated. The project root is the root of the tree.
- Generators.RunProjectGenerators: that the managed names show again what they showed is stated when every originally shown name still leads somewhere; when a directory above it, behind a link, is missing, only the results without the view hold. The places must be apart, and no way to one may run through another.
- Mutations.CommandsStayWithinDeclaredPaths: the go commands are assumed to write only go.mod and go.sum; which handler and stub files are missing is a parameter, and the checks on user-owned handler code are not modelled.
- Transactions.Store.MutateFiles: new directories made by a failed mutation stay, as in the code.
- OutputCommit.Disk.Commit: the temporary files of an atomic write and the directories made for new outputs are not modelled.
- Runs.BindClientKeeps: assumes that resolve returns complete bindings with valid methods; server binds and generate need no such assumption because they validate.
- Commuting.UnbindUndoesServerBind: the package path of a resolved binding is non-blank and trimmed.
- Schemas.BuildStruct: the order of required names, descriptions and extensions are dropped; they do not matter for acceptance. An unparsable tag literal cannot come out of the parser.
- Decoding.SchemasAreSound: keys are matched exactly, numbers are mathematical values (no float overflow, no distinction between 1 and 1.0), and date-time strings are those that both sides accept.
- Decoding.OneFieldIsSoundExactly: stated for one primitive field. For larger types only the direction from faithful tags to soundness holds in general, since a required recursive field can make a schema accept nothing.
- ServiceStubs.Plan: a failed inspection of an existing path is not modelled.
- ModuleSpecs.ModuleSpecRoundTrip: the checks on module path and version that follow the split are foreign code.
- server/grpcx/server.go `prepare`, and `Stop` before a server exists: listener bookkeeping only.
- Restoring and pruning generated protobuf files: the same pattern as the restores above, without their difficulties.
- The argument checks of `Registry.Add`, and commands for printing, doctor, tool installation, option setters and status mapping tables.
