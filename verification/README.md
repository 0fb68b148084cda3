# Kf: a verified model of its algorithmic core

Kf brings the Cloud Foundry developer experience to Kubernetes. Most of it is plumbing around
Kubernetes clients; this project models the parts that compute something hard and proves what
they keep, over all inputs, all reachable states or all interleavings.

| file | what it models |
|---|---|
| `LogReaders.dfy`, `LogQueue.dfy`, `LogMerge.dfy`, `RecentLogs.dfy`, `RecentLogsProofs.dfy`, `RecentLogsEndToEnd.dfy`, `RecentLogsOutcomes.dfy`, `RecentLogsRuns.dfy` | `kf logs --recent`: a windowed reader, a reader that walks back in five-second steps, one bounded queue per container, the k-way latest-first consumer, the collector and the two contexts, as a step system over all interleavings |
| `FollowLogs.dfy` | `kf logs`: the watch loop, its wait group and the streaming goroutines, as a step system |
| `Ordering.dfy`, `Algorithms.dfy`, `Strings.dfy` | Dedupe, Delete, Search and Merge over any strict weak order, on arrays compacted in place |
| `ServiceAccounts.dfy` | reconciling a service account whose secrets the cluster also writes |
| `EnvVars.dfy`, `AppMerge.dfy`, `AppUpdates.dfy` | environments, the merge of a pushed App into the stored one, and any number of clients in read/modify/write loops against a versioned store |
| `Paths.dfy`, `SourceImage.dfy`, `SourceTar.dfy`, `SourceRoundTrip.dfy`, `SourceUpload.dfy` | packing a directory into a tar and extracting it, and the agreement on size and checksum between client and server |
| `Substitution.dfy`, `SubstitutionValues.dfy`, `SubstitutionKeys.dfy` | `((name))` variables in a manifest tree |
| `Unstructured.dfy`, `UnstructuredEquality.dfy` | nested-field writes as a lens, and bringing an untyped object in line with a desired one |
| `Retention.dfy`, `RetentionRuns.dfy` | which Builds and Tasks of an App are garbage collected |
| `Manifests.dfy`, `ManifestMeanings.dfy` | manifest validation, conversion to a container, and the API's container validation |

Conventions. `sort.Stable` is a function (it has one result); `sort.Sort` and `sort.Slice` are a
method that promises a sorted permutation and nothing about equivalent elements. Timestamps are
integers. A container's log is fixed and, where a lemma says so, ascending in time; the server
returns every line at or after `SinceTime`, which it may round down in any monotone way. The
clock, the outcome of API calls, the hash, the quantity parser and how a value prints are
parameters.

Where the code does not keep a promise in every case, the model keeps the code and states the
exact condition:

- The output of `Recent` is ordered exactly when no pass of the consumer passed on a line while a
  queue it found empty still had a better line to come
  (`RecentLogsProofs.OrderExactlyWhenFaithful`, counterexample `RecentLogsRuns.StarvedRunMissesLatest`).
- A successful `Recent` in which a reader failed returns the latest lines since Pod creation exactly
  when the failed reader left no later line unread (`RecentLogsEndToEnd.LatestSinceCreationIff`,
  counterexample `RecentLogsRuns.FailedReaderHidesLatest`).
- One window read is complete exactly when no line of the window is streamed behind a line past
  its end (`WindowedLogReader.WindowCompleteIff`, counterexample
  `WindowedLogReader.OvertakenLineIsMissed`).
- A retried push equals one merge against the latest App exactly under `AppMerge.RetriesHarmless`,
  a condition on the versions that were read (`AppMerge.RetriesAreOneMergeIff`, counterexample
  `AppMerge.RetryRevivesRemovedVariable`).
- Extraction does not truncate, and what is in the target stays: a path comes out exact if and only
  if no file was there, or a packed one that is not longer (`SourceRoundTrip.ExactIff`,
  counterexample `SourceRoundTrip.LongerFileKeepsItsEnd`).
- `TrimPathPrefix` does not trim the root directory (`Paths.TrimRoot`). When the root is packed, the
  tar has the same names, but the filter is asked about absolute paths
  (`SourceRoundTrip.RelativeFilterIff`, counterexample `SourceRoundTrip.RootIgnoresFilter`).
- The whole-string rule of substitution and the scanner agree exactly when no `))` comes before
  the end (`Substitution.WholeStringAgreesIff`, counterexample `Substitution.WholeStringDiffers`).
- Substituted keys can become the same; the result is independent of the order in which Go walks
  the maps of a manifest, at any depth, exactly when the values of such keys become the same, too
  (`SubstitutionKeys.OrderIrrelevantIff`, counterexample `SubstitutionKeys.OrderMatters`).
- `Transform` ignores the error of a blocked write; which fields converge is
  `UnstructuredEquality.TransformConvergesIff` (counterexample
  `UnstructuredEquality.BlockedUnlessCovered`).
- `tasksToGC` panics exactly on a negative limit (`Retention.TasksToGC`), and
  `Upload` dereferences nil exactly on a negative number of retries (`SourceUpload.Upload`).

## Model

| member | source | states |
|---|---|---|
| LogQueue.Queue.constructor | pkg/kf/logs/queue.go:29-33 | a new queue is valid and empty |
| LogQueue.Queue.Peek | pkg/kf/logs/queue.go:36-55 | returns the oldest line not dequeued, nil exactly on an empty queue, and changes nothing a reader can see |
| LogQueue.Queue.Dequeue | pkg/kf/logs/queue.go:58-75 | returns the oldest line and removes it and nothing else, whether it sits in the peek slot or in the channel |
| LogQueue.Queue.Empty | pkg/kf/logs/queue.go:77-88 | true exactly when nothing enqueued is left, the peek slot included |
| LogQueue.Queue.Enqueue | pkg/kf/logs/queue.go:91-98 | appends at the back or, only with a done context, leaves the queue alone |
| LogQueue.AllEmpty | pkg/kf/logs/queue.go:119-127 | true exactly when every queue is empty |
| WindowedLogReader.Collect | pkg/kf/logs/windowed_log_reader.go:75-91 | the callback keeps the stream up to the first line at or past the end of the window |
| WindowedLogReader.Read | pkg/kf/logs/windowed_log_reader.go:75-91 | an ascending permutation of what was streamed before the window's end |
| WindowedLogReader.WindowCompleteIff | pkg/kf/logs/windowed_log_reader.go:75-91 | for every log, a read returns exactly the lines of the half-open window if and only if none of them is streamed behind a line past its end |
| WindowedLogReader.OvertakenLineIsMissed | pkg/kf/logs/windowed_log_reader.go:75-91 | a log in which a window line is streamed behind a later one is read without it |
| WindowedLogReader.AscendingNotOvertaken | pkg/kf/logs/windowed_log_reader.go:75-91 | in an ascending log no window line is missed |
| ReverseLogReader.Read | pkg/kf/logs/reverse_log_reader.go:67-107 | an uncancelled read enqueues exactly the covered lines, each as often as the log holds it, latest first, across empty windows and equal timestamps; it fails exactly when a window read fails, and stops after WindowCount window reads |
| ReverseLogReader.ReadWindow | pkg/kf/logs/reverse_log_reader.go:73-105 | one turn of the loop keeps: the queue holds exactly the lines from the current end on, latest first, and no line lies between the last window's start and that end |
| ReverseLogReader.EnqueueReversed | pkg/kf/logs/reverse_log_reader.go:98-104 | a window's lines go to the queue in reverse order |
| ReverseLogReader.WindowCountIs | pkg/kf/logs/reverse_log_reader.go:67-107 | the number of window reads is floor((now - creation) / 5s) + 1 |
| ReverseLogReader.WindowCountPastCreation | pkg/kf/logs/reverse_log_reader.go:67-107 | after that many windows the walk is past the Pod's creation |
| ReverseLogReader.CoversFromCreation | pkg/kf/logs/reverse_log_reader.go:67-107 | a complete walk covers every line stamped from creation up to the start of the read exactly as often as it occurs, however the server rounds |
| LogMerge.MergeExtends | pkg/kf/logs/logs_reader.go:194-241 | passing a container's next line on extends a merged prefix if and only if it is the latest of all lines to come |
| LogMerge.MergeSplit | pkg/kf/logs/logs_reader.go:194-241 | a merged prefix leaves exactly the merge of what it did not take |
| LogMerge.MergeTakes | pkg/kf/logs/logs_reader.go:194-241 | the merge hands out every line of every container, each container in its own order |
| LogMerge.MergeIsSort | pkg/kf/logs/logs_reader.go:194-241 | the k-way merge of latest-first lists is "concatenate and stably sort by time, latest first" |
| RecentLogsProofs.RunKeeps | pkg/kf/logs/logs_reader.go:128-271 | every interleaving of readers, starter, consumer, collector and both contexts keeps the invariant |
| RecentLogsProofs.OutputIsFaithfulPerContainer | pkg/kf/logs/logs_reader.go:194-270 | with no assumption on scheduling: the output of one container is a prefix of what its reader enqueued, and at most max(1, numLines) lines are returned |
| RecentLogsProofs.DequeueNeverNil | pkg/kf/logs/logs_reader.go:228-233 | the branch for a nil Dequeue after a Peek is dead in every reachable state |
| RecentLogsProofs.ShortSuccessIsComplete | pkg/kf/logs/logs_reader.go:165-270 | a successful return with fewer than max(1, numLines) lines under a live context means that no reader failed and every line of every reader is in the output |
| RecentLogsOutcomes.FailsOnlyIfReaderFails | pkg/kf/logs/logs_reader.go:169-183 | in every run with a live context the call fails only if one of its readers does, and only once every reader is done |
| RecentLogsOutcomes.CanStillReturn | pkg/kf/logs/logs_reader.go:128-271 | from every state that a run with a live context reaches, however full the queues, the call can still return: no interleaving leads into a dead end |
| RecentLogsOutcomes.EverythingCanEnd | pkg/kf/logs/logs_reader.go:128-271 | from every reachable state, even with full queues and a line nobody takes any more, every goroutine of the call can end once the caller's context is done |
| RecentLogsOutcomes.CancelStopsSoon | pkg/kf/logs/logs_reader.go:194-241 | once the caller's context is done at most one more line is passed on, whatever is still queued |
| RecentLogsOutcomes.ReturnCancelsReaders | pkg/kf/logs/logs_reader.go:128-135 | a call that has returned has cancelled its readers |
| RecentLogsOutcomes.DropsGetThrough | pkg/kf/logs/reverse_log_reader.go:98-104 | a reader whose context is done gets through its lines although its queue is full, passing over what it drops |
| RecentLogsProofs.OrderExactlyWhenFaithful | pkg/kf/logs/logs_reader.go:194-241 | the output is a prefix of the latest-first merge if and only if no pass skipped a container that still had a better line |
| RecentLogsProofs.NoStarvationKeepsOrder | pkg/kf/logs/logs_reader.go:202-241 | if no line was selected in a pass that found a still-producing container's queue empty, order is kept; passes that select nothing, such as those before the first line arrives, do not count |
| RecentLogsProofs.RecentIsTopOfSortedUnion | pkg/kf/logs/logs_reader.go:128-271 | refinement: such a successful call returns "concatenate all, sort by time descending, take N", in non-increasing order |
| RecentLogsEndToEnd.MissingLinesAreOlder | pkg/kf/logs/logs_reader.go:128-271 | end to end with the reverse readers, however far each of them got before it failed, for every successful call whose picks were good: a line that was read and is missing from the output is no later than any returned line, and N lines were returned |
| RecentLogsEndToEnd.LatestSinceCreationIff | pkg/kf/logs/logs_reader.go:165-270 | a reader's failure is reported only once all readers are done, so a call can succeed although one failed; its lines are the latest since the Pods were created if and only if no line that a failed reader left unread is later than a returned one |
| RecentLogsEndToEnd.NoFailureKeepsLatest | pkg/kf/logs/logs_reader.go:128-271 | they are in every successful call in which no reader fails |
| RecentLogsRuns.FailedReaderHidesLatest | pkg/kf/logs/logs_reader.go:165-270 | a successful run, with a reader that failed, that does not return the latest line |
| RecentLogsRuns.StarvedRunMissesLatest | pkg/kf/logs/logs_reader.go:202-209 | a run whose second queue is still empty returns an older line instead of the latest |
| FollowLogs.RunKeeps | pkg/kf/logs/logs_reader.go:369-498 | every interleaving of watch events and streams keeps the invariant |
| FollowLogs.FollowNeverPanics | pkg/kf/logs/logs_reader.go:369-498 | in every reachable state whatever can happen next uses a channel that is open: no send on a closed channel, no double close, no negative wait group; the wait group counts exactly the live streams |
| FollowLogs.NoAddAfterWait | pkg/kf/logs/logs_reader.go:369-452 | once a run has come to the wait, every run that goes on from there has the same streams, only lets them end, and never adds to the wait group |
| FollowLogs.StartedExactlyOnce | pkg/kf/logs/logs_reader.go:454-498 | between two Deleted events of a Pod each container is started at most once, and at the watch every unfiltered container of a tracked Pod has been started |
| FollowLogs.TrackedIff | pkg/kf/logs/logs_reader.go:400-450 | from the watch events alone: a Pod is tracked if and only if it was reported in a phase with logs and not deleted since |
| FollowLogs.FollowsReadyPods | pkg/kf/logs/logs_reader.go:454-504 | back at the watch every container of such a Pod has its stream, except istio-proxy and istio-init, which never have one, and every stream follows a container that such a report listed |
| FollowLogs.ReturnsClosed | pkg/kf/logs/logs_reader.go:391-410 | unless the watch could not be opened, both channels are closed when the call returns and no stream is left |
| Algorithms.Dedupe | pkg/kf/algorithms/algorithms.go:116-133 | a clone is sorted stably and compacted in place: the specification DedupeOf, with the input unchanged |
| Algorithms.CompactInPlace | pkg/kf/algorithms/algorithms.go:120-132 | overwriting the list while comparing its neighbours leaves exactly the elements that are greater than their left neighbour in the list as it was |
| Algorithms.DedupeCorrect | pkg/kf/algorithms/algorithms.go:116-133 | strictly ascending, exactly the input's equivalence classes, each represented by its first occurrence |
| Algorithms.Index | pkg/kf/algorithms/algorithms.go:185-190 | the binary search finds the boundary between smaller elements and the rest |
| Algorithms.Search | pkg/kf/algorithms/algorithms.go:170-183 | agrees with linear membership up to equivalence on every list |
| Algorithms.Delete | pkg/kf/algorithms/algorithms.go:139-154 | the subsequence of the input, in order, that Without selects; inputs unchanged |
| Algorithms.WithoutMembers | pkg/kf/algorithms/algorithms.go:139-154 | an element survives if and only if nothing equivalent is in the other list |
| Algorithms.Merge | pkg/kf/algorithms/algorithms.go:195-200 | on all inputs: strictly sorted, the union of the classes, members of the second list win; on a deduped second list exactly MergeOf, whatever the unstable sort does |
| Algorithms.LookupMerge | pkg/kf/algorithms/algorithms.go:195-200 | Merge is the right-biased union |
| Algorithms.MergeSorted | pkg/kf/algorithms/algorithms.go:195-200 | a merge is strictly sorted |
| Algorithms.MergeAssociative | pkg/kf/algorithms/algorithms.go:195-200 | Merge is associative |
| Algorithms.MergeAbsorbs | pkg/kf/algorithms/algorithms.go:195-200 | a list whose keys are all there already changes nothing |
| Algorithms.MergeTwice | pkg/kf/algorithms/algorithms.go:195-200 | Merge(d, Merge(d, a)) = Merge(d, a) |
| Algorithms.SortDeduped | pkg/kf/algorithms/algorithms.go:195-200 | an unstable sort has only one result on a list without equivalent elements |
| Subjects.SubjectClasses | pkg/kf/algorithms/subjects.go:37-49 | the order identifies exactly the subjects with equal kind, name and namespace |
| Subjects.SortedSubjects | pkg/kf/algorithms/subjects.go:37-49 | a sorted list of subjects goes by kind, within a kind by name, and within a name by namespace |
| Subjects.LessIsOrder | pkg/kf/algorithms/subjects.go:37-49 | it is a strict weak order, so every generic result applies |
| ServiceAccounts.MergeRefs | pkg/reconciler/base.go:204-213 | references are merged by name, the actual list winning, for every actual list, duplicates included |
| ServiceAccounts.Reconcile | pkg/reconciler/base.go:196-247 | desired is overwritten with the merge, actual is untouched, a write happens exactly when labels, secrets, pull secrets or the checked annotation differ, and a failing write returns nothing; unless one fails, the account reached has the desired labels, the merged references, the checked annotation of desired and the rest of actual |
| ServiceAccounts.ReconcileReachesDesired | pkg/reconciler/base.go:196-247 | what a reconcile leaves in the cluster has the desired labels, the merged references, the desired Workload Identity if asked for, and everything else as it was |
| ServiceAccounts.NoNeedlessWrite | pkg/reconciler/base.go:215-232 | nothing is written if and only if the account has all of that already |
| ServiceAccounts.ReconcileConverges | pkg/reconciler/base.go:196-247 | a second reconcile of the same desired account, as it was or as the first call left it, writes nothing |
| ServiceAccounts.SecretsNeverDisappear | pkg/reconciler/base.go:196-247 | over any run mixing reconciles (stale reads included) with secrets the cluster adds, no committed secret reference is lost |
| EnvVars.EnvVarsToMap | pkg/internal/envutil/envutil.go:31-39 | the map in which the last variable of a name wins |
| EnvVars.MapToEnvVars | pkg/internal/envutil/envutil.go:43-53 | the strictly name-sorted list of the map, whatever the map's iteration order |
| EnvVars.SortedListUnique | pkg/internal/envutil/envutil.go:43-60 | there is only one such list |
| Strings.StrLessWhereTheyPart | pkg/internal/envutil/envutil.go:56-60 | the order of names: where two strings part, the smaller character comes first, or the string that ends |
| EnvVars.DeduplicateEnvVars | pkg/internal/envutil/envutil.go:95-97 | computes the canonical form |
| EnvVars.CanonicalMap | pkg/internal/envutil/envutil.go:95-97 | the canonical form is strictly name-sorted and means the same |
| EnvVars.CanonicalEqual | pkg/internal/envutil/envutil.go:95-97 | canonical forms are equal if and only if the environments mean the same |
| AppMerge.Object.SetAppEnvVars | pkg/internal/envutil/envutil.go:128-134 | replaces the first container's environment, creating a container if there is none, and keeps everything else |
| AppMerge.Object.SetResourceRequest | pkg/kf/apps/push.go:475-486 | writes one request of the first container and changes nothing else, nothing at all without a container |
| AppMerge.Object.SetResources | pkg/kf/apps/push.go:466-473 | replaces the requests of the first container, nothing without a container |
| AppMerge.OverwriteRequests | pkg/kf/apps/push.go:446-449 | in any iteration order, the first container's requests end up overridden by the new ones; its environment and every other container stay |
| AppMerge.MergeApps | pkg/kf/apps/push.go:400-454 | the new App ends up as MergeOf of the two Apps as they were, the old App with the new requests and otherwise unchanged |
| AppMerge.MergeFields | pkg/kf/apps/push.go:402-436 | counters, package name, routes, scaling and version of the merge, with the containers untouched |
| AppMerge.MergeContainers | pkg/kf/apps/push.go:438-450 | environment and requests of the merge, and what it does to the old App |
| AppMerge.MergedEnv | pkg/kf/apps/push.go:438-444 | the merged environment is strictly name-sorted and is the stored one overridden by the pushed one |
| AppMerge.RetriedPush | pkg/kf/apps/push.go:400-454 | after any number of conflicts: counters and version follow the last read, the generated package name has the new build number, a replica count the user did not set is kept or becomes 1, generated routes give way to existing ones, every pushed variable has its pushed value, no variable of the last read is missing, strictly sorted |
| AppMerge.RetriedEnv | pkg/kf/apps/zz_generated.client.go:215-239 | after any number of conflicts the environment is the pushed one over what the losing reads contributed, the earliest read winning |
| AppMerge.RetriedRequests | pkg/kf/apps/zz_generated.client.go:215-239 | the same for requests, except that a read version without a container makes the push lose its own requests and all earlier ones |
| AppMerge.RetriesAreOneMergeIff | pkg/kf/apps/zz_generated.client.go:215-239 | because the merged App is reused on conflict: after any number of conflicts the result equals one merge against the latest version if and only if no variable, request or route of the losing reads shows through and no pushed request was lost |
| AppMerge.RetriesAreOneMerge | pkg/kf/apps/zz_generated.client.go:215-239 | if all conflicting writers left env, requests and routes alone and the App has a container, any number of retries is one merge against the latest App |
| AppMerge.RetryRevivesRemovedVariable | pkg/kf/apps/zz_generated.client.go:215-239 | otherwise a variable removed in between comes back |
| AppUpdates.RunKeeps | pkg/kf/apps/zz_generated.client.go:153-239 | every interleaving of clients keeps the invariant |
| AppUpdates.NoUpdateIsLost | pkg/kf/apps/zz_generated.client.go:153-239 | template counter = start + committed Restarts + pushes, build counter = start + committed Restages + pushes, and committed pushes have distinct, ascending build numbers |
| AppUpdates.CommittedPush | pkg/kf/apps/zz_generated.client.go:215-239 | what a push commits, against the App it replaced: one more than its counters, its replica count unless the user set one, its routes where routes are generated, its own variables winning, none of the replaced App's missing, strictly name-sorted |
| AppUpdates.CommittedPushIsOneMergeIff | pkg/kf/apps/zz_generated.client.go:215-239 | in any run of any number of clients, a committed push is one merge of its original App into the App it replaced exactly under that condition on the versions it lost against |
| AppUpdates.OnlyCountersChange | pkg/kf/apps/client.go:57-73 | over any run of Restarts and Restages, whatever the interleaving, nothing but the counters and the version of the App changes |
| Paths.TrimBelow | pkg/sourceimage/utils.go:34-53 | trimming a clean directory from a clean path below it leaves the relative path, and the path counts as a sub-path |
| Paths.TrimRoot | pkg/sourceimage/utils.go:40-53 | trimming the root directory from any other clean path returns the whole path |
| Paths.TrimmedIsBelow | pkg/sourceimage/utils.go:34-53 | conversely, a clean path from which a clean directory can be trimmed lies at or below that directory, and its relative path is left |
| Paths.TarPathIsClean | pkg/sourceimage/extract.go:109-111 | whatever a header is called, its cleaned name is a clean absolute path, without ".." |
| Paths.JoinAbsolute | pkg/sourceimage/create.go:249-275 | joining a clean directory and a clean absolute path puts the one below the other |
| Paths.JoinBelow | pkg/sourceimage/extract.go:75-100 | joining a clean absolute directory and a clean relative path is concatenation |
| Paths.CleanTarPath | pkg/sourceimage/extract.go:109-111 | a clean absolute name stays as it is |
| Paths.ParentCancels | pkg/sourceimage/extract.go:109-111 | a path part that ".." follows is as if neither were there |
| SourceImage.WalkVisits | pkg/sourceimage/create.go:223-246 | the walk visits exactly the nodes of the tree, each under its path |
| SourceTar.PackageDirectoryToTar | pkg/sourceimage/create.go:215-275 | the tar holds, in walk order, a header for exactly the visited files that pass the filter |
| SourceTar.ExtractTar | pkg/sourceimage/extract.go:42-59 | the count includes skipped headers and is the length of the part that was extracted; an error leaves exactly the effect of that part |
| SourceTar.OutputOf | pkg/sourceimage/extract.go:75-100 | a header packed for a relative path is extracted to that path below the target |
| SourceTar.NameOf | pkg/sourceimage/create.go:223-275 | the header of a visited file depends only on its path below the source directory, the root included; only what the filter is asked differs at the root |
| SourceTar.FailureLeavesNothing | pkg/sourceimage/extract.go:75-100 | a file that cannot be written leaves no new directory behind |
| SourceTar.NothingEscapes | pkg/sourceimage/extract.go:37-111 | for every tar, relative and ".." names included, extraction changes no file that is not at or below the target, and makes no directory but at, below or above it |
| SourceTar.SkippedMakeNoDifference | pkg/sourceimage/extract.go:75-100 | headers that are neither file nor directory, or not below the source path, make no difference wherever they stand |
| SourceRoundTrip.ExtractOver | pkg/sourceimage/extract.go:42-111 | extracting a packed directory over whatever the target held: it succeeds if and only if no file is in the way of a packed directory and no directory in the way of a packed file; then every packed file is written over what was at its path, and every other file stays |
| SourceRoundTrip.RoundTrip | pkg/sourceimage/extract.go:42-111 | into an empty target exactly the regular files that pass the filter come back, with contents and relative paths, even below filtered directories, and no file elsewhere changes; for every clean absolute source path |
| SourceRoundTrip.ExactIff | pkg/sourceimage/extract.go:61-73 | writing does not truncate: into a target that is not empty, the round trip is exact at a path if and only if no file was there, or one that is packed and not longer than the packed one |
| SourceRoundTrip.LongerFileKeepsItsEnd | pkg/sourceimage/extract.go:61-73 | a target in which a longer file keeps its last byte |
| SourceRoundTrip.RelativeFilterIff | pkg/sourceimage/create.go:234-237 | the files that come back are those whose relative path passes the filter if and only if the source is not the root or the filter treats every file's absolute path as its relative one |
| SourceRoundTrip.RootIgnoresFilter | pkg/sourceimage/create.go:234-237 | a filter and a file in the root directory for which it does not |
| SourceUpload.CopyTee | pkg/sourceimage/uploader.go:176-183 | file and hasher see the same bytes, at most the limit, however the reads are chunked; the copy fails exactly when the disk is full before the end or reading on fails |
| SourceUpload.SaveAndVerify | pkg/sourceimage/uploader.go:148-196 | succeeds exactly when a temporary file can be made and holds the first Size bytes, and these are there and have the recorded checksum; saves exactly those |
| SourceUpload.Upload | pkg/sourceimage/uploader.go:62-139 | at most n+1 lookups, the exact total sleep, the exact condition of every outcome, and a push happens exactly for a pending package whose saved bytes are the first Size bytes with the recorded hash, unless the disk fails |
| SourceUpload.SleepBound | pkg/sourceimage/uploader.go:77-96 | with n retries the total sleep is at most 10ms * (2^n - 1) |
| SourceUpload.PackageSourcePath | pkg/kf/sourcepackages/client.go:185-240 | the file is the concatenation of the writes and the checksum is its hash |
| SourceUpload.PackagedVerifies | pkg/kf/sourcepackages/client.go:115-181 | a packaged file always passes the server's check with its recorded size and checksum, and anything else passes only by a hash collision |
| SourceUpload.UploadSourcePath | pkg/kf/sourcepackages/client.go:115-181 | client and server together: whatever is pushed has the size and hash of what the client wrote; if that arrives, it is exactly what is pushed, and it is pushed exactly when the package was created, the first lookup to find it finds it pending within the retries, and the disk holds it |
| Substitution.MatchAtShortest | pkg/kf/manifest/substitution.go:28-31 | the scanner finds a match of the pattern at a position if there is one, and the shortest |
| Substitution.TokensText | pkg/kf/manifest/substitution.go:84-97 | literals and matches concatenate back to the source string |
| Substitution.TokensMatch | pkg/kf/manifest/substitution.go:84-97 | every variable token is a match of the pattern |
| Substitution.ReplaceAll | pkg/kf/manifest/substitution.go:84-97 | one left-to-right scan of the source renders every token and never looks at inserted text; it fails exactly when a name is unbound |
| Substitution.SubstituteText | pkg/kf/manifest/substitution.go:78-97 | the rule for strings: a whole-string match keeps the variable's value, otherwise text is replaced |
| SubstitutionValues.ReferenceKeepsValue | pkg/kf/manifest/substitution.go:79-82 | a string that is one reference becomes exactly what the variable holds, with its type |
| SubstitutionValues.EmbeddedReference | pkg/kf/manifest/substitution.go:84-97 | a reference inside other text becomes what its value prints as, and the text around it stays, whatever was inserted |
| Substitution.SubstituteTree | pkg/kf/manifest/substitution.go:49-102 | the recursion over the tree computes the tree substitution |
| Substitution.SubstituteArray | pkg/kf/manifest/substitution.go:67-76 | the loop overwrites item by item and stops at the first error |
| Substitution.SubstituteMap | pkg/kf/manifest/substitution.go:51-65 | the loop fills a new map field by field and stops at the first error |
| SubstitutionKeys.OrderIrrelevantIff | pkg/kf/manifest/substitution.go:51-76 | for every manifest whose variables are bound: it becomes the same in whatever order Go walks its maps, at every depth, if and only if no map anywhere in it has two fields whose keys become the same and whose values become different things, equal maps in another order counting as the same |
| SubstitutionKeys.NoClashSame | pkg/kf/manifest/substitution.go:51-76 | without a clash, any two listings of the same manifest become the same manifest |
| SubstitutionKeys.ClashShows | pkg/kf/manifest/substitution.go:51-76 | a clash anywhere in the tree shows in some order of walking it |
| SubstitutionKeys.OrderMatters | pkg/kf/manifest/substitution.go:51-76 | a nested map with two outcomes |
| Substitution.SucceedsIff | pkg/kf/manifest/substitution.go:49-114 | substitution succeeds if and only if every name in any key, item or string is bound |
| Substitution.IdentitySubstitution | pkg/kf/manifest/substitution.go:49-114 | binding every variable to its own text returns the tree unchanged |
| Substitution.WholeStringAgreesIff | pkg/kf/manifest/substitution.go:28-31 | the whole-string rule and the scanner agree if and only if no closing pair comes before the end |
| Substitution.WholeStringDiffers | pkg/kf/manifest/substitution.go:28-31 | a string on which the two rules differ |
| Unstructured.GetBelow | pkg/kf/dynamicutils/utils.go:134-152 | reading at or below the written path reads from the written value |
| Unstructured.GetAbove | pkg/kf/dynamicutils/utils.go:134-152 | above it there is a map in which the rest was written |
| Unstructured.GetElsewhere | pkg/kf/dynamicutils/utils.go:134-152 | an incomparable path is untouched |
| Unstructured.SetBack | pkg/kf/dynamicutils/utils.go:134-152 | writing back what is there changes nothing |
| Unstructured.CanSetIff | pkg/kf/dynamicutils/utils.go:134-152 | a write succeeds if and only if nothing that is not a map is in the way |
| UnstructuredEquality.Builder.Append | pkg/reconciler/unstructured_equality.go:44-92 | the flag stays true only while all fields agree; a change is recorded unless the desired path runs into a non-map |
| UnstructuredEquality.Builder.Transform | pkg/reconciler/unstructured_equality.go:102-106 | applies the recorded changes in order, ignoring blocked ones; a write below a map that was written without copying changes the desired object, too |
| UnstructuredEquality.AppendAll | pkg/reconciler/unstructured_equality.go:44-106 | equality is reported if and only if every field agrees, and the two objects end up as After |
| UnstructuredEquality.TransformConvergesIff | pkg/reconciler/unstructured_equality.go:44-106 | for every list of paths, overlapping, blocked or missing in desired, in any order: checking the same two objects again after Transform, a listed field agrees if and only if desired is not itself blocked there and a listed path at or above it was writable in actual, or a nil is in the way of a field that should be nil; every path incomparable to all of them is unchanged in both objects |
| UnstructuredEquality.DesiredUnchanged | pkg/reconciler/unstructured_equality.go:44-106 | although the two objects share maps, Transform changes desired only if a listed field is missing in it |
| UnstructuredEquality.TransformConverges | pkg/reconciler/unstructured_equality.go:44-106 | if desired has all listed fields and none is blocked, all agree with desired as it was |
| UnstructuredEquality.BlockedUnlessCovered | pkg/reconciler/unstructured_equality.go:44-106 | a field blocked by a string that does not converge, and does when the field above it is listed, too |
| Retention.TasksToGC | pkg/reconciler/garbagecollector/reconciler.go:150-181 | only final tasks go, none younger than a kept final one; max(limit, non-final) are kept over a limit, all under it; a negative limit panics |
| Retention.BuildsToGC | pkg/reconciler/garbagecollector/reconciler.go:183-208 | only final builds go, none younger than a kept final one; min(finals, max(1, limit)) final builds are kept |
| Retention.TasksSteady | pkg/reconciler/garbagecollector/reconciler.go:101-181 | a second pass selects nothing |
| Retention.BuildsSteady | pkg/reconciler/garbagecollector/reconciler.go:101-208 | a second pass selects nothing |
| RetentionRuns.FinalBuildSurvives | pkg/reconciler/garbagecollector/reconciler.go:61-115 | over any run in which Builds are created and complete between and during collections that list once and delete one by one, and may stop at a failing delete: an App that once had a final Build keeps one |
| RetentionRuns.OnlyFinalDeleted | pkg/reconciler/garbagecollector/reconciler.go:83-115 | in every such run a Build that is deleted by name is the Build that was selected, unchanged and final |
| RetentionRuns.CollectionReachesLimit | pkg/reconciler/garbagecollector/reconciler.go:80-115 | a collection that nobody disturbs leaves every non-final Build and min(finals, max(1, limit)) final ones |
| Manifests.ValidateContainerPortsArray | pkg/apis/kf/k8s_validation.go:93-111 | no error if and only if every port is in bounds and the names are distinct |
| Manifests.ValidateContainer | pkg/apis/kf/k8s_validation.go:71-89 | no error if and only if the container has only allowed resources, non-empty variable names, ports in bounds with distinct names, and probes of an allowed shape |
| ManifestMeanings.ContainersTurnedDown | pkg/apis/kf/k8s_validation.go:71-203 | all the reasons for which a container is turned down, spelled out |
| Manifests.ValidatePorts | pkg/kf/manifest/manifest_validation.go:117-147 | no error if and only if every port and protocol is allowed and port numbers are distinct |
| Manifests.ValidateRoutePorts | pkg/kf/manifest/manifest_validation.go:38-114 | no error if and only if every route port is 0 or a declared port |
| Manifests.Validate | pkg/kf/manifest/manifest_validation.go:38-114 | no error if and only if the application meets all the rules |
| ManifestMeanings.ApplicationsTurnedDown | pkg/kf/manifest/manifest_validation.go:38-147 | all the reasons for which an application is turned down, spelled out |
| Manifests.ToResourceRequirements | pkg/kf/manifest/manifest_conversion.go:50-126 | succeeds if and only if all quantities parse and a CPU limit is no smaller than the resulting request; memory and storage requests equal their limits, and CPU is the request, its default by memory or the configured minimum |
| Manifests.CPURequirement | pkg/kf/manifest/manifest_conversion.go:74-99 | the CPU request as given or by memory, and at least the configured minimum; fails exactly if it does not parse |
| ManifestMeanings.ResourcesMean | pkg/kf/manifest/manifest_conversion.go:50-126 | memory and disk are reserved exactly as asked for, and not at all if not asked for; a CPU limit is set only if asked for and is at least the request |
| ManifestMeanings.QuantitiesTurnedDown | pkg/kf/manifest/manifest_conversion.go:50-126 | all the reasons for which the conversion of quantities fails |
| ManifestMeanings.CPURequestIs | pkg/kf/manifest/manifest_conversion.go:74-99 | the request is what was asked for or the share for the memory, a gibibyte by default, and never below the minimum |
| ManifestMeanings.DefaultCPUIs | pkg/kf/manifest/manifest_conversion.go:82-90 | the default is the least number of thousandths not below the share per gibibyte |
| ManifestMeanings.UnitsBecomeBinary | pkg/kf/manifest/manifest_conversion.go:128-142 | a quantity in K, M, G or T, with or without B and spaces around it, becomes the binary unit of the same letter |
| ManifestMeanings.OtherUnitsStay | pkg/kf/manifest/manifest_conversion.go:128-142 | any other quantity is not touched |
| Manifests.ToContainer | pkg/kf/manifest/manifest_conversion.go:284-329 | exactly when the conversion fails; otherwise the container for the application, its CPU request at least the minimum and any CPU limit at least the request |
| Manifests.HealthChecksConvert | pkg/kf/manifest/manifest_conversion.go:155-267 | for a valid application neither health-check conversion can fail, and both make probes of an allowed shape |
| ManifestMeanings.StartupProbe | pkg/kf/manifest/manifest_conversion.go:144-211 | checks every two seconds with the handler, endpoint and answer time asked for, and the fewest failures that last as long as the timeout, one minute by default |
| ManifestMeanings.PostStartupProbe | pkg/kf/manifest/manifest_conversion.go:213-267 | checks every thirty seconds with the same handler and answer time, and one failure is one too many |
| ManifestMeanings.OwnProbesKept | pkg/kf/manifest/manifest_conversion.go:284-329 | probes that the application set itself are taken over as they are |
| ManifestMeanings.CommandKept | pkg/kf/manifest/manifest_conversion.go:284-329 | a valid application's command, arguments and entrypoint all reach the container |
| Manifests.PortNamesDiffer | pkg/kf/manifest/manifest_conversion.go:284-329 | different port numbers give different port names |
| ManifestMeanings.PortNameReads | pkg/kf/manifest/manifest_conversion.go:284-329 | a port's name is its protocol, a hyphen and its number in decimal |
| Manifests.ValidAppMakesValidContainer | pkg/kf/manifest/manifest_conversion.go:284-329 | preservation: the container of a valid application passes the API's validation if and only if its environment has no empty name, which the manifest's validation does not look at |
| Manifests.PushContainer | pkg/kf/manifest/manifest_validation.go:38-114 | validate, convert, validate again: for a valid application the conversion succeeds exactly when its quantities fit, and the container is then rejected only for an empty variable name |

## Left out

- Kubernetes clients, informers, the registry, HTTP handlers and the byte formats of tar and zip; a tar is a sequence of headers with contents, the cluster a versioned store or a list of committed versions.
- Timers and fairness: that a run which can make progress does, that `follow` shuts down, how long the consumer sleeps.
- Parsing of timestamps, and logs that change or go back in time during a read.
- ReverseLogReader.Read: a cancelled or blocking Enqueue is not in this method; the step system of `RecentLogs` interleaves, blocks and drops single enqueues of the same list.
- LogQueue.Queue.Enqueue: waiting for room is a precondition here and an enabling condition in the step system.
- RecentLogsProofs.RecentIsTopOfSortedUnion: order is claimed only for runs in which no skipped queue had a better line to come, because the code skips empty live queues.
- Each reverse walker is assumed to have its own Pod, which the code gets from per-iteration loop variables.
- `follow`: the order of Pods in one list of events, and reopening a watch.
- AppUpdates.NoUpdateIsLost: Upsert's create path and API errors other than conflicts; a client that meets one gives up.
- AppMerge.MergeApps: the difference between nil and empty lists and maps; the generated package name is symbolic; the parts of a spec that a push simply replaces are one opaque field.
- SourceRoundTrip.RoundTrip: symbolic links to directories count as empty directories; special files, permissions, owners and zip sources are not modelled.
- SourceTar.ExtractTar: a failing copy in the middle of a file's bytes is not modelled.
- Unstructured.GetBelow: the cursor that inserts into nested maps is modelled on values. Maps that Transform shares between the desired and the written object are modelled by the set of paths at which they are shared. NewUnstructured and CheckConditions are left out.
- UnstructuredEquality.TransformConvergesIff: semantic equality of leaves is equality.
- Substitution.SubstituteTree: that an input array is overwritten before an error is found; the iteration order of a map is the order of its field list.
- Manifests.ToResourceRequirements: floating point is exact (reals), and Unicode white space in quantities is not trimmed.
- Manifests.HealthChecksConvert: a failure threshold past 32 bits wraps around; Go leaves that conversion from a float to the platform.
- Manifests.Validate: validation of metadata is a flag.
- RemoveEnvVars and ParseCLIEnvVars, the other generated clients, line limits and resume timestamps of streams, command wiring, printing and admission callbacks.
- RetentionRuns.FinalBuildSurvives: Builds that somebody else deletes while a collection is under way.
