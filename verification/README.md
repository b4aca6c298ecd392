# A Dafny model of the cluster monitoring operator

This project models the parts of the cluster monitoring operator in which several functions, or several
runs of one, have to work together, and proves what they promise.

* **Telemetry compiler** (`Text`, `Order`, `PromQLGen`, `Relabel`, `Grouped`). A list of PromQL selectors
  becomes a relabel "keep" rule and one grouped selector. Both texts are given a meaning by small readers
  for the fragments of regular expressions and of PromQL that are emitted. It is shown exactly when
  the rule keeps what the selectors say, and exactly when the grouped selector matches all of that.
* **ClusterOperator status** (`Conditions`, `Status`, `StatusRuns`). The three status calls run against a
  store whose requests may fail; the conditions after any run, their transition times included, are
  characterised by the run alone.
* **gRPC key material** (`Grpc`, `GrpcRuns`). Rotation of the CA in its last fifth of validity, coherence of
  the stored bundle, what each certificate says, forced rotation, and absence of expiry over whole runs.
* **Content-addressed objects** (`Fnv`, `FnvVectors`, `Metadata`, `Cluster`, `Hashed`, `CaBundle`, `GrpcCopy`,
  `UserWorkload`). Hash naming, metadata merging, storing a copy and deleting its predecessors with a
  failure possible at every request, and the create and destroy paths of user workload monitoring.
* **Reconcile loop** (`WorkQueue`, `Operator`, `Reconcile`, `ReconcileProofs`). Events, the work queue, its
  worker and interleaving tasks as one state machine; what holds when the operator has come to rest.
* **Small parsers and printers** (`PascalCase`, `Images`).

Code that changes things step by step is written as methods and classes whose contracts tie the new state
to functions of the old one; the theorems are lemmas about those functions.

## Assumptions

* Selectors arrive parsed. Regular expressions are fully anchored, as Prometheus anchors them, and are read
  in the fragment both compilers emit: literals, `|`, and one outer group. A text outside it matches nothing
  in the model, so theorems about meaning ask for values without metacharacters; what the compiled text
  holds is shown for any values.
* A Go map may be walked in any order: such loops take an arbitrary next key.
* Every API request may fail, independently (`Api.fails`, `Env`); a server may drop the status of a newly
  created object. Other actors write between requests only where a member says so: the root ConfigMap and
  the gRPC secret may change before any poll of the wait for them, and in the reconcile machine any object
  but the copies may change at any time.
* In the reconcile machine other actors do not write, delete or label a copy of the gRPC secret. Deleting
  one triggers no reconcile, so the idle theorems need this (`ReconcileProofs.CopyLossUnnoticedExactly`).
* `mergo.Merge` fills a key of its destination where that key is absent or empty.
* The certificate library signs with the key it is given; a fresh self-signed CA and issued certificates are
  valid from one second before the clock reading to one lifetime after it, in whole seconds. The lifetime in
  days is a parameter, as the constant comes from a library.
* The status theorems treat a call whose update fails as leaving the store as it then is.
* `ToPascalCase` is modelled on ASCII text.

## Findings

* Matcher types are ignored by the compiler, and an empty list compiles to a rule that keeps everything. For
  plain values and distinct labels, the rule keeps what the selectors mean if and only if there is a selector
  and no matcher is negated (`Relabel.MeaningPreservedExactly`, with `Relabel.NegationIsIgnored` as a
  witness). Where a selector repeats a label, its own part of the rule is right if and only if exactly the
  matchers that are not negated give the label's last value (`Relabel.SelectorMeaningExactly`).
* The grouped selector misses kept series exactly when
  some selector is silent on `__name__` while others give it, always non-empty (`Grouped.ContainmentExact`).
* A stored gRPC secret without any data makes every rotation write to a nil map
  (`GrpcRuns.EmptySecretStaysEmpty`, `GrpcRuns.SucceedsUnlessEmpty`).
* Only the concatenation of values is hashed. Moving any text from the end of one value to the front of the
  next keeps the name, and changes the data unless later pairs override both (`Hashed.BoundariesAreNotHashed`).
* The trigger key of the gRPC secret is a constant in `openshift-monitoring`. In a namespace where it does
  not apply, the operator can come to rest over an outdated copy (`ReconcileProofs.IdleConsistencyExactly`). The
  informers resync every 15 minutes (pkg/operator/operator.go:41), so such a rest lasts between resyncs.
* The comment on `SetInProgress` speaks of a previous Available condition that is false; the code also goes
  progressing when it is unknown, or true at another version. The model follows the code.

## Model

| member | source | states |
|---|---|---|
| PromQLGen.LabelSelectorsToRelabelConfig | pkg/promqlgen/promqlgen.go:27-64 | for every list: the source labels are the mentioned ones, each once in order seen; the regular expression joins rows of the last value each selector gives each of them, by indices into the selectors |
| PromQLGen.RegexHoldsValues | pkg/promqlgen/promqlgen.go:49-63 | for all values without ';' and the bar, metacharacters included: split at the bars and then at the semicolons it has one alternative per selector and in it one value per source label, that of the last matcher, or "" |
| PromQLGen.LabelPositions | pkg/promqlgen/promqlgen.go:33-47 | source labels are distinct, a label stands before another only if it is mentioned first, and the index maps each to its place |
| PromQLGen.LabelValues | pkg/promqlgen/promqlgen.go:51-54 | a row holds, per source label, the value of the last matcher on it, and "" where there is none |
| Relabel.CompiledMeaning | pkg/promqlgen/promqlgen.go:33-63 | for every list, empty or with repeated labels: kept iff the list is empty or the series agrees with some selector on every source label |
| Relabel.MeaningPreservedExactly | pkg/promqlgen/promqlgen.go:27-64 | with plain values and distinct labels, the rule keeps exactly the series some selector means iff there is a selector and no matcher is negated |
| Relabel.SelectorMeaningExactly | pkg/promqlgen/promqlgen.go:50-58 | one selector, repeated labels included, gets a part that says what it means iff exactly its matchers that are not negated give the last value of their label |
| Relabel.RelabelPreservesMeaning | pkg/promqlgen/promqlgen.go:27-64 | for lists of selectors that meet that condition: kept iff some selector selects the series and the labels it does not mention are empty, even if series values contain ';' |
| Relabel.NegationIsIgnored | pkg/promqlgen/promqlgen.go:52-54 | a negated matcher keeps what it is meant to exclude |
| PromQLGen.GroupLabelSelectors | pkg/promqlgen/promqlgen.go:66-107 | whatever order the map is walked in, the output is the comma-joined terms in strictly increasing label order, each the label with all its values in order, for any values |
| PromQLGen.GroupValues | pkg/promqlgen/promqlgen.go:71-82 | each label is mapped to all its values, in order |
| Order.StrictOrderUnique | pkg/promqlgen/promqlgen.go:84-88 | sorting distinct keys has only one outcome |
| Order.LessIsLexicographic | pkg/promqlgen/promqlgen.go:88 | the order is the byte-wise lexicographic one |
| Grouped.PrintedParsesBack | pkg/promqlgen/promqlgen.go:84-106 | the printed text parses back to one term per label, sorted |
| Grouped.PatternHoldsValues | pkg/promqlgen/promqlgen.go:93-98 | a printed pattern splits back into the label's values, and "" unless it is the metric name |
| Grouped.MatcherOrderIrrelevant | pkg/promqlgen/promqlgen.go:66-107 | reordering distinct matchers inside selectors leaves the text unchanged |
| Grouped.GroupedMeaning | pkg/promqlgen/promqlgen.go:90-106 | a series matches the text iff each of its labels has one of the listed values or, off the metric name, is empty |
| Grouped.ContainmentExact | pkg/promqlgen/promqlgen.go:27-107 | every kept series is matched by the grouped selector iff no selector is silent on a metric name that others give, always non-empty |
| Conditions.ConditionTable.constructor | pkg/client/condition.go:27-70 | unknown conditions overlaid by the stored ones, later entries winning |
| Conditions.StoredEntriesRead | pkg/client/condition.go:27-57 | of several stored entries of a kind the last counts; an owned kind without any is unknown as of now |
| Conditions.ConditionTable.SetCondition | pkg/client/condition.go:72-103 | unless suppressed, an entry that is missing or differs in status or message becomes exactly the given status, message, reason and time, and nothing else changes; progress is ignored while available at the wanted version |
| Conditions.ConditionTable.Entries | pkg/client/condition.go:105-111 | every entry once, in any order |
| Conditions.ListingReadsBack | pkg/client/condition.go:55-57 | a table written out in any order reads back as itself |
| Status.StatusReporter.SetDone | pkg/client/status_reporter.go:63-98 | for every fault of get, create and update, the store is what the run theorems take one done step to leave, and an error is returned iff nothing took effect |
| Status.StatusReporter.SetInProgress | pkg/client/status_reporter.go:107-131 | likewise for a progress step, which keeps the recorded versions and refreshes the related objects |
| Status.StatusReporter.SetFailed | pkg/client/status_reporter.go:137-164 | likewise for a failure step, which keeps the recorded versions and reports the reason in PascalCase |
| Status.StatusReporter.constructor | pkg/client/status_reporter.go:37-61 | the related objects: the two namespaces and the seven kinds of monitoring resources |
| Status.StatusReporter.NewClusterOperator | pkg/client/status_reporter.go:166-183 | four unknown conditions, no versions, the related objects |
| Status.EffectiveExactly | pkg/client/status_reporter.go:63-98 | a call takes effect iff the object is read or created and the update goes through |
| StatusRuns.StatusRefinesTrace | pkg/client/status_reporter.go:63-164 | after any run: Available iff the last verdict was done, Degraded iff it was failed, versions as last done wrote them, Progressing iff reopened since |
| StatusRuns.ProgressingWhileAvailable | pkg/client/condition.go:90-100 | both together mean a rollout at another version than the recorded one was begun |
| StatusRuns.EntryKeptOverRun | pkg/client/condition.go:72-103 | over any run other owners' conditions are preserved and a transition time changes only with status or message |
| StatusRuns.EntryIsOfLastChange | pkg/client/condition.go:79-88 | over any run, an owned entry is what the last call that changed its status or message asked for, and its transition time is that call's clock |
| StatusRuns.UnchangedEntryStays | pkg/client/condition.go:81-88 | an entry no call changed is whole, its time included |
| StatusRuns.EffectiveCallShows | pkg/client/status_reporter.go:75-152 | status and message of each of the four conditions after any call that takes effect |
| StatusRuns.RelatedOverRun | pkg/client/status_reporter.go:107-183 | the related objects are stored from the first call on that reports progress or creates the object with its status |
| StatusRuns.SteadyStateIsQuiet | pkg/client/status_reporter.go:75-80 | after a done, any calls at the same version other than failures leave the three conditions and their times as they are |
| Grpc.RotateGRPCSecret | pkg/manifests/tls.go:72-179 | in-place rotation equals the specified one: when to rotate, what is issued, which failures end it |
| GrpcRuns.KeptExactly | pkg/manifests/tls.go:76-98 | nothing is rotated iff a CA is readable, not due and no rotation is forced; otherwise a rotation is stored iff no step fails and there is a data map |
| GrpcRuns.DueExactly | pkg/manifests/tls.go:38-42 | due iff less than a fifth of the validity is left, in exact integers, for saturated and negative spans too |
| GrpcRuns.RotationStores | pkg/manifests/tls.go:33-178 | each stored certificate: subject, issuer, serial, valid from the whole second of its clock reading less one second to the last whole second within so many days of 86400 seconds; a readable CA keeps its key with the next serial; other data stay |
| Grpc.RunTask | pkg/tasks/clustermonitoringoperator.go:86-115 | load, rotate, store: either the whole new secret is stored or nothing changes |
| GrpcRuns.RunStoresBundle | pkg/tasks/clustermonitoringoperator.go:86-115 | a successful run that rotates stores such a bundle |
| GrpcRuns.BundleAlwaysCoherent | pkg/manifests/tls.go:134-178 | over any run with failures at any step, stored client and server certificates are issued by the stored CA and outlive it |
| GrpcRuns.SerialCountsRotations | pkg/manifests/tls.go:100-132 | while a CA is readable its key is constant and its serial is the start plus the number of rotations |
| GrpcRuns.FreshIsDueInLastFifth | pkg/manifests/tls.go:38-42 | a fresh CA is due again exactly in the last fifth of its validity |
| GrpcRuns.NothingExpires | pkg/manifests/tls.go:80-118 | if checks follow each other within a fifth of the validity, CA, client and server certificate are unexpired at every instant after the first check |
| GrpcRuns.ForcedIsConsumed | pkg/client/client.go:1251-1266 | a successful run removes the forced-rotate annotation from the stored object |
| GrpcRuns.ForcedRotationOnce | pkg/manifests/tls.go:91-98 | one run bumps the serial by one and removes the annotation; later runs before the threshold rotate nothing |
| GrpcRuns.QuietRun | pkg/manifests/tls.go:96-98 | a run that needs no rotation leaves the stored secret identical |
| GrpcRuns.EmptySecretStaysEmpty | pkg/manifests/tls.go:139-140 | a stored secret without data is never repaired, over any run |
| Fnv.Hasher.Write | pkg/manifests/manifests.go:3452-3460 | the streaming state is the FNV-1 sum of the bytes so far |
| Fnv.StepIsBijective | pkg/manifests/manifests.go:3452-3460 | each FNV-1 step is a bijection on 64-bit states, with its inverse given |
| Fnv.OneByteChangesSum | pkg/manifests/manifests.go:3452-3465 | changing exactly one byte always changes the hash |
| Fnv.FormatInjective | pkg/manifests/manifests.go:3465 | base-32 formatting tells all numbers apart |
| Fnv.HashLength | pkg/manifests/manifests.go:3452-3465 | the hash of any content has 1 to 13 digits |
| Fnv.DigitsAre | pkg/manifests/manifests.go:3465 | the digits are 0 to 9 and a to v |
| FnvVectors.KnownHashes | pkg/manifests/manifests_test.go:34-97 | the hashes its test expects, for no data, one pair, a dangling key and two pairs |
| Hashed.HashSecret | pkg/manifests/manifests.go:3451-3478 | for any number of pairs the name is the hash of the concatenated values and the data is the map of the pairs |
| Hashed.SecretIs | pkg/manifests/manifests.go:3467-3475 | name and labels of a hashed secret |
| Hashed.OneByteChangesName | pkg/manifests/manifests.go:3456-3470 | changing one byte of one value always changes the object's name |
| Hashed.DanglingKeyIgnored | pkg/manifests/manifests.go:3456 | an odd last argument changes neither hash nor data |
| Hashed.NamesShareSums | pkg/manifests/manifests.go:3456-3470 | two lists get the same name iff the FNV-1 sums of their concatenated values agree |
| Hashed.BoundariesAreNotHashed | pkg/manifests/manifests.go:3456-3461 | for any two neighbouring pairs among any others, moving text across the boundary of their values keeps the name, and changes the data iff the text is not empty and later pairs do not override both |
| Metadata.MergeMetadata | pkg/client/client.go:1251-1266 | required metadata filled up with the existing one minus operator-prefixed keys |
| Metadata.MetadataAfterReconciles | pkg/client/client.go:928-983 | after any sequence of reconciles: operator keys exactly as last desired, other keys never lost, with the latest non-empty value |
| Metadata.RepeatChangesNothing | pkg/client/client.go:928-983 | repeating the last reconcile changes nothing |
| Cluster.Api.CreateOrUpdate | pkg/client/client.go:928-983 | the object is created or replaced with merged metadata, or nothing changes; at most one write |
| Cluster.Api.CreateOrUpdateUnlessEqual | pkg/client/client.go:1043-1064 | no update while the specification is as wanted |
| Cluster.Api.Recreate | pkg/client/client.go:1102-1128 | delete and create; a failure in between can only lose the object |
| Cluster.Api.CreateIfNotExist | pkg/client/client.go:1000-1014 | an existing object is left alone |
| Cluster.Api.DeleteIfPresent | pkg/client/client.go:556-562 | deleting what is missing is no error |
| Cluster.Api.DeleteHashed | pkg/client/client.go:357-397 | every intermediate state has lost only members with another hash; a completed run has lost all of them |
| CaBundle.HashTrustedCA | pkg/manifests/manifests.go:3408-3439 | fails exactly without a non-empty bundle; otherwise the copy named and labelled by its hash |
| CaBundle.CopyIs | pkg/manifests/manifests.go:3426-3438 | the copy is named prefix, "-trusted-ca-bundle-" and the base-32 sum of the bundle, and labelled with prefix and hash |
| CaBundle.CopiesShareSums | pkg/manifests/manifests.go:3418-3429 | two bundles get the same copy iff their FNV-1 sums agree |
| CaBundle.OneByteChangesCopy | pkg/manifests/manifests.go:3418-3429 | changing one byte of a bundle always changes the name of its copy |
| CaBundle.RootIsNoCopy | pkg/manifests/manifests.go:3429 | no bundle's copy is stored over the root ConfigMap of its prefix |
| CaBundle.WaitForBundle | pkg/tasks/helpers.go:39-69 | ends with a bundle that is stored in the root, and misses none that a poll could see |
| CaBundle.CaBundleSyncer.SyncTrustedCABundle | pkg/tasks/helpers.go:33-87 | success means settled; of any two states of the run, the later follows the earlier: waiting, then the waited-for cluster, then the copy stored and some predecessors gone |
| Hashed.StoreAddressed | pkg/tasks/helpers.go:76-86 | create-or-update, then collect: interrupted at any request, or settled; once stored, the object is stored at every later request |
| Hashed.SettledExactly | pkg/client/client.go:357-397 | what is left of the family, object by object, and what is untouched |
| Hashed.ExactlyOne | pkg/client/client.go:357-397 | exactly one is left iff no other object claims the same hash |
| Hashed.FamilyNeverEmpty | pkg/tasks/helpers.go:76-86 | a copy, once present, exists at every intermediate step |
| Hashed.CrashTolerant | pkg/tasks/helpers.go:76-86 | an interrupted run followed by a full one ends where one full run ends |
| CaBundle.CompletedSync | pkg/tasks/helpers.go:71-86 | a completed run leaves exactly one labelled copy, with the root bundle, and touches no other family |
| CaBundle.SyncKeepsRoot | pkg/tasks/helpers.go:71-86 | a completed run leaves the root ConfigMap as its wait found it |
| CaBundle.SyncIsStepSafe | pkg/tasks/helpers.go:33-87 | from the first step at which a copy exists, before or during the run, one exists at every later step |
| CaBundle.InterruptedThenFull | pkg/tasks/helpers.go:33-87 | interruption and retry over the same root equal one full run, for any root that is not named like a copy |
| CaBundle.RecoversAfterInterruption | pkg/tasks/helpers.go:33-87 | whatever bundle was interrupted, the next full run leaves exactly the copy of its own |
| GrpcCopy.WaitForSecret | pkg/client/client.go:783-815 | whatever others write before each poll: ends at the first poll that finds a secret none of whose values is empty, with that secret |
| GrpcCopy.CopyGrpcSecret | pkg/tasks/prometheus.go:253-289 | the copy of the secret the wait found is interrupted or settled, over the cluster as others left it |
| GrpcCopy.CopyCarriesValues | pkg/tasks/prometheus.go:268-272 | the copy carries exactly the three values, each as it is in the secret, or empty if it is missing there |
| UserWorkload.PrometheusUserWorkloadTask.Create | pkg/tasks/prometheus_user_workload.go:47-229 | the exact cluster after a completed create, others writing the gRPC secret during the wait; without faults it completes if any poll could find the secret |
| UserWorkload.PrometheusUserWorkloadTask.Destroy | pkg/tasks/prometheus_user_workload.go:231-389 | the exact cluster after a completed destroy, likewise |
| UserWorkload.CreateMeans | pkg/tasks/prometheus_user_workload.go:47-229 | a completed create has every own object and the current copy, no older copies, and nothing else changed |
| UserWorkload.CreateStores | pkg/tasks/prometheus_user_workload.go:47-229 | what a completed create stores: roles, Prometheus object and monitors with the wanted data and merged metadata; bindings and services likewise where their data differ; the bundle ConfigMap and the service account only if missing |
| UserWorkload.CreateKeepsSecret | pkg/tasks/prometheus_user_workload.go:152-189 | a completed create leaves the gRPC secret as its wait found it |
| UserWorkload.CreateThenDestroy | pkg/tasks/prometheus_user_workload.go:39-45 | with unchanged gRPC data, destroy removes the very copy create made and leaves the start minus own keys and copies |
| UserWorkload.SecondDestroyIsIdle | pkg/tasks/prometheus_user_workload.go:231-389 | a second destroy over the same data changes nothing |
| UserWorkload.CopyLeftBehind | pkg/tasks/prometheus_user_workload.go:39-45 | for any change in between, the copy made by create stays iff the hash of the values changed |
| WorkQueue.TakenValid | pkg/operator/operator.go:291-296 | handing out a key keeps the queue free of duplicates and of keys being processed |
| WorkQueue.FinishedValid | pkg/operator/operator.go:296-308 | a finished key is back in line iff it was added meanwhile |
| Operator.Controller.HandleEvent | pkg/operator/operator.go:253-284 | a triggering event queues the one key, any other leaves the queue alone |
| ReconcileProofs.WatchedEventStartsSync | pkg/operator/operator.go:253-284 | in any run that comes to rest, a sync has begun after every event of each of the nine watched objects |
| ReconcileProofs.UnwatchedStartsNothing | pkg/operator/operator.go:264-279 | while no watched event is emitted the worker idles |
| Operator.Controller.ProcessNextWorkItem | pkg/operator/operator.go:291-311 | one turn of the worker with events arriving: back-off only on failure, then done |
| Operator.RunAll | pkg/tasks/tasks.go:36-63 | no error iff all tasks succeed, otherwise name and error of the first to fail, for every completion order |
| ReconcileProofs.IdleReportsTruth | pkg/operator/operator.go:329-390 | over all interleavings: idle status matches the last sync, a failed sync leaves the key pending, rest implies Available |
| ReconcileProofs.IdleImpliesConsistent | pkg/operator/operator.go:253-311 | where the trigger applies, rest after a sync means exactly one copy with the current gRPC values, for every interleaving |
| ReconcileProofs.UntriggeredOperatorDrifts | pkg/operator/operator.go:43-51 | where it does not, some run comes to rest over an outdated copy |
| ReconcileProofs.CopyLossUnnoticedExactly | pkg/operator/operator.go:264-284 | if the copy is deleted under an operator at rest, it stays at rest without one iff that event does not trigger |
| ReconcileProofs.IdleConsistencyExactly | pkg/operator/operator.go:264-284 | rest implies consistency over all runs iff events of the namespace's gRPC secret trigger a reconcile |
| PascalCase.ToPascalCase | pkg/strings/strings.go:49-69 | the loops compute the specified words and their translation |
| PascalCase.PascalConservesContent | pkg/strings/strings.go:32-69 | on ASCII, only separators and case change, no separator is left, no lowercase start |
| PascalCase.FirstNumberSetApart | pkg/strings/strings.go:24-36 | the first number after a letter is set apart by spaces, and a letter right after it belongs to the match |
| PascalCase.WithoutNumbers | pkg/strings/strings.go:32-36 | a text in which no digit follows a letter stays as it is |
| PascalCase.WordsAround | pkg/strings/strings.go:54-61 | each cut character separates the words before it from those after it |
| PascalCase.PascalOfWords | pkg/strings/strings.go:38-69 | the result is the words one after the other, three of them in full capitals, the others with a capital wherever a letter begins |
| Images.ParseThenPrint | pkg/manifests/image.go:29-44 | parsing succeeds iff there is a colon, and printing undoes it |
| Images.PrintThenParse | pkg/manifests/image.go:29-44 | printing then parsing is the identity iff the tag has no colon |
| Images.ImagesFlag.Set | cmd/operator/main.go:47-60 | pairs are inserted up to the first malformed one |
| Images.ImagesFlag.String | cmd/operator/main.go:41-45 | the pairs of one walk over the map, comma-joined |
| Images.FlagRoundTrip | cmd/operator/main.go:41-68 | Set of String on an empty map rebuilds the map iff it is not empty and free of '=' and ',', for every walk |

## Left out

- `promql.ParseMetricSelector` and its error return, YAML, PEM and x509 encoding, random generation: libraries that are not part of this model.
- The Factory methods that fill in decoded assets and the configuration loaders: field assignments only; their results are parameters.
- Informers, tickers and polling intervals: events may be emitted and delivered at any time, and waits end with a satisfying state or an error.
- Rollout waiters, daemon sets, deployments, routes and webhooks.
- The rate limiter's back-off times and its failure counts: a key that backs off is released at some time.
- Optimistic locking by resource version: within one rotation run no other actor writes the secret between load and store.
- A CA certificate stored beside a key it was not issued for: whether signing then fails is left to the certificate library, and the coherence theorem starts from a secret that is missing, unreadable or coherent.
- Operator.RunAll: task results and the completion order are given, since tasks share no memory that the runner looks at.
- ReconcileProofs.IdleReportsTruth: assumes that status writes get through, as failed ones are only logged.
- ReconcileProofs.IdleImpliesConsistent: ranges over runs in which other actors do not touch a copy, as `CopyLossUnnoticedExactly` shows it must; resyncs are not modelled.
- ReconcileProofs.IdleConsistencyExactly: likewise, on both sides of the equivalence.
- Reconcile.Next: storing the copy is one step, although `CreateOrUpdateSecret` is a get followed by an update.
- Inside the reconcile machine the rotating run is one write of an arbitrary new secret; `Grpc` says which secret that is.
- UserWorkload.CreateStores: for assets whose own keys differ from each other, as those of the factory do.
- UserWorkload.CreateThenDestroy: assumes that nobody labels the gRPC secret as one of its own copies, and is stated for user workload Prometheus only; the Thanos Ruler and Telemeter paths delete fewer objects than they create.
- `CreateOrUpdateService`: the cluster IP that an update carries over is not modelled.
- PascalCase.ToPascalCase: on ASCII text only; the reasons that reach it are built from ASCII constants.
- Status.StatusReporter.SetFailed: takes an ASCII reason, for the same cause.
- CaBundle.CaBundleSyncer.SyncTrustedCABundle: for a root ConfigMap with a namespace, as every factory sets one; without one the copy and the deletion would go to different namespaces.
- Operator.Controller.HandleEvent: starts from an object's key; an object whose key cannot be computed is ignored.
