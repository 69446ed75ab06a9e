# canary-checker scheduling and reconciliation, modelled in Dafny

This project models the core of canary-checker's Kubernetes controller. The controller
watches `Canary` resources and keeps one periodic job per canary in a cron table. Each run
resolves the canary's secret references, substitutes `$(name)` placeholders in the spec, runs
every registered checker, and folds the results into the canary's status.

The model also covers the value helpers of `pkg/api.go`: the `Checks` sort order, `Swap`,
check labels and the PASS/FAIL and VALID/INVALID labels of a result.

Modules (one file each):

- `Strings` (`strings.dfy`): Go's `<` on strings, `strings.TrimLeft`/`TrimRight` with a
  one-character cutset, and `%d` formatting with its inverse.
- `Seqs` (`seqs.dfy`): concatenation of a list of lists, as repeated `append` builds it.
- `Api` (`api.dfy`): `pkg/api.go`.
- `Templater` (`templater.dfy`): `StructTemplater` and the reflection walk, over an explicit
  tree of Go values.
- `Job` (`job.dfy`): `LoadSecrets` and `CanaryJob.Run` up to the report.
- `Controllers` (`controller.dfy`): the `CanaryReconciler` class with `Reconcile`, `Report`
  and `Patch`, the loop `Fold` of `Report`, plus the pure functions `ReconcileSpec` and `ReportSpec` that specify them.

Each state-changing method is proved equal to its pure function. The promised properties are
lemmas about those functions.

External collaborators become inputs:

- The secret resolver (`GetEnvVarRefValue`) is a function `resolve`.
- The checkers are a sequence of functions from spec to results, in registry order.
- The history head returned by `cache.AddCheck` for result `i` is `head(i)`.
- The clock is `clock`, indexed by position in the batch: `clock(0)` is the reading taken
  for the last check time and `clock(i + 1)` the one iteration `i` would take. Go reads the
  clock in an iteration only when `transitioned` is set. Only the last iteration's index is
  ever used, and that iteration always reads the clock when `transitioned` is set.
- The cron library's verdict on a schedule string is `accepts`.
- Whether a status write succeeds is `patchOk`.
- The resource store is a map from identity to canary. The patches attempted, the immediate
  runs started and the events emitted are logs in the state.

Behaviour of the code worth noting:

- A secret-resolution failure only logs and returns. No synthetic failing result is reported
  and `Report` is not called.
- Every registered checker is run on every spec. Each checker decides for itself whether it
  has configuration.
- The immediate first run is started only when the interval is positive.
- Any string starting with `$` is a reference: `$name`, `$(name)` and `$((name))` all name
  `name`.
- Only string-kinded struct fields that Go reflection can set are rewritten. Strings that are
  slice or array elements, map values or pointer targets are not. A struct field under a map
  value is rewritten only when a pointer or a slice lies between the map and the field. An
  array element is addressable only when its array is.
- An unexported field makes everything below it read-only, except that the exported fields
  of an unexported embedded struct can still be set. This is how Go's `Value.Field` treats its
  "embedded read-only" flag.
- `LastTransitionedTime` is written on the transitioning iteration and again on every later
  one. Its final value is the last iteration's clock reading.

## Model

| member | source | states |
|---|---|---|
| `Strings.Less` | pkg/api.go:67-72 | Go's `<` on strings: a string is never less than itself, and a proper prefix is less than the whole string |
| `Strings.TrimLeft` | pkg/controllers/canary_controller.go:146 | the input is a run of the cutset character followed by the result, and the result does not start with that character |
| `Strings.TrimRight` | pkg/controllers/canary_controller.go:146 | the input is the result followed by a run of the cutset character, and the result does not end with that character |
| `Strings.Decimal` | pkg/controllers/canary_controller.go:219 | `%d` of a non-negative interval is a non-empty string of digits with no leading zero |
| `Strings.DecimalRoundTrip` | pkg/controllers/canary_controller.go:219 | reading the formatted interval back gives the interval |
| `Api.Len` | pkg/api.go:64-66 | `Len` is the number of checks in the slice |
| `Api.CheckLess` | pkg/api.go:68-71 | two checks ordered by it differ in type or name; with equal types, a name that is a proper prefix of the other comes first |
| `Api.Less` | pkg/api.go:67-72 | irreflexive and asymmetric; compares types when they differ and names only when the types are equal |
| `Api.CheckLessIrreflexive` | pkg/api.go:67-72 | no check is less than itself |
| `Api.CheckLessAsymmetric` | pkg/api.go:67-72 | the order never holds both ways |
| `Api.CheckLessTransitive` | pkg/api.go:67-72 | the order is transitive |
| `Api.CheckLessTypeFirst` | pkg/api.go:67-72 | type decides when types differ; name decides only when types are equal |
| `Api.CheckLessTrichotomy` | pkg/api.go:67-72 | for checks with different (type, name) keys exactly one of the two comparisons holds |
| `Api.Swapped` | pkg/api.go:73-75 | positions `i` and `j` exchanged, every other position and the length kept |
| `Api.Swap` | pkg/api.go:73-75 | the slice afterwards is the old slice with `i` and `j` exchanged, and a permutation of it |
| `Api.SwappedPermutes` | pkg/api.go:73-75 | exchanging two elements keeps the multiset of elements |
| `Api.SwappedTwice` | pkg/api.go:73-75 | swapping the same positions twice restores the slice |
| `Api.ToString` | pkg/api.go:77-79 | the label is the type, then `;`, then the name |
| `Api.ToStringSplits` | pkg/api.go:77-79 | when the type has no `;`, splitting the label at its first `;` gives back type and name |
| `Api.ResultLabels` | pkg/api.go:133-143 | the verdict label is PASS or FAIL and the validity label is VALID or INVALID |
| `Api.ResultLabelsMeaning` | pkg/api.go:133-143 | PASS iff passed; INVALID iff failed and invalid; passed gives PASS/VALID whatever `Invalid` is; failed and invalid gives FAIL/INVALID; failed and valid gives FAIL/VALID |
| `Templater.Lookup` | pkg/controllers/canary_controller.go:147 | Go map indexing: the stored value, or the empty string for a missing key |
| `Templater.PlaceholderKey` | pkg/controllers/canary_controller.go:146 | the key is shorter than the reference and neither starts with `(` nor ends with `)` |
| `Templater.Template` | pkg/controllers/canary_controller.go:144-153 | the input comes back unchanged unless it starts with `$` and its key has a non-empty value, which is then returned |
| `Templater.PlaceholderKeyOf` | pkg/controllers/canary_controller.go:146 | `$` plus any run of `(`, a key, and any run of `)` yields that key, for a key that neither starts with `(` nor ends with `)` |
| `Templater.TemplateResolves` | pkg/controllers/canary_controller.go:144-153 | a reference to a key with a non-empty value becomes that value |
| `Templater.TemplateUnresolvedUnchanged` | pkg/controllers/canary_controller.go:144-153 | a reference to a missing or empty key stays exactly as written |
| `Templater.TemplateIgnoresPlainStrings` | pkg/controllers/canary_controller.go:145 | a string not starting with `$` is returned unchanged |
| `Templater.TemplateExamples` | pkg/controllers/canary_controller.go:144-153 | `$(dbpass)` with dbpass set to secret123 gives secret123; `$(missing)` stays `$(missing)` |
| `Templater.FieldAccess` | pkg/controllers/canary_controller.go:138 | a field can be set iff its struct is addressable, carries no sticky read-only flag, and the field is exported; an unexported embedded parent does not stop it |
| `Templater.ElementAccess` | pkg/controllers/canary_controller.go:138 | a slice element can be set unless a read-only flag is set; an array element as well needs its array to be addressable |
| `Templater.TargetAccess` | pkg/controllers/canary_controller.go:138 | a pointer target can be set unless a read-only flag is set |
| `Templater.MapValueAccess` | pkg/controllers/canary_controller.go:138 | a map value can never be set |
| `Templater.Walk` | pkg/controllers/canary_controller.go:137-142 | the walked tree has the same shape: constructors, slice or array kind, lengths, field names and flags, map keys and non-string leaves are kept |
| `Templater.WalkField` | pkg/controllers/canary_controller.go:137-142 | a field keeps its name, its exportedness, its embeddedness and the shape of its value |
| `Templater.Rewrite` | pkg/controllers/canary_controller.go:138-139 | each target string becomes its template and every other string is kept; length and target marks are kept |
| `Templater.WalkRewritesLeaves` | pkg/controllers/canary_controller.go:137-142 | the strings of the walked tree are the old strings in walk order, with exactly the settable string fields templated, each once |
| `Templater.WalkSliceUnderMap` | pkg/controllers/canary_controller.go:137-142 | a string field inside a struct in a slice under a map value is templated |
| `Templater.WalkArrayUnderMap` | pkg/controllers/canary_controller.go:137-142 | the same field inside an array under a map value is not |
| `Templater.WalkThroughEmbedded` | pkg/controllers/canary_controller.go:137-142 | an exported string field of an unexported embedded struct is templated |
| `Templater.WalkThroughUnexported` | pkg/controllers/canary_controller.go:137-142 | an exported string field under an unexported named field is not |
| `Templater.TemplateSpec` | pkg/controllers/canary_controller.go:166-171 | templating a spec keeps its interval and the shape of its env map and check lists |
| `Templater.TemplateSpecRewrites` | pkg/controllers/canary_controller.go:166-171 | in the env map and the check lists, exactly the settable string fields are templated |
| `Job.ResolveEnv` | pkg/controllers/canary_controller.go:156-164 | when resolution fails, its error is the error of some entry of `env` |
| `Job.ResolveEnvFailure` | pkg/controllers/canary_controller.go:158-162 | resolution fails iff some reference fails, and then with the first failing reference's error |
| `Job.ResolveEnvKeys` | pkg/controllers/canary_controller.go:156-164 | on success the resolved keys are exactly the env keys |
| `Job.ResolveEnvValues` | pkg/controllers/canary_controller.go:159-163 | on success a key's value is what its last entry resolved to |
| `Job.ResolveEnvStops` | pkg/controllers/canary_controller.go:160-162 | the first failure ends resolution: later entries are not consulted |
| `Job.LoadSecrets` | pkg/controllers/canary_controller.go:155-173 | on a resolver failure, that error and the spec untemplated; otherwise no error and the spec templated with the resolved values |
| `Job.Collect` | pkg/controllers/canary_controller.go:118-121 | every result of every checker occurs in the combined list |
| `Job.CollectAt` | pkg/controllers/canary_controller.go:118-121 | result `j` of checker `k` sits after all results of the earlier checkers |
| `Job.Run` | pkg/controllers/canary_controller.go:109-123 | nothing to report when secrets fail; otherwise the concatenated results of every checker, in registry order, on the templated spec |
| `Controllers.FirstEntry` | pkg/controllers/canary_controller.go:205-211 | the position of the first entry for the identity: no earlier entry is for it, and the one there is, unless the table has none |
| `Controllers.RemoveFirst` | pkg/controllers/canary_controller.go:205-211 | no entry is added; with no entry for the identity the table is unchanged, otherwise exactly one entry is removed |
| `Controllers.EverySchedule` | pkg/controllers/canary_controller.go:219 | the schedule is `@every `, digits, then `s` |
| `Controllers.Included` | pkg/controllers/canary_controller.go:181-188 | empty filters let every request through; a non-empty filter admits only its own namespace or name |
| `Controllers.Skipped` | pkg/controllers/canary_controller.go:181-202 | a request that is not skipped is in the store; an included request in the store is handled when it was not observed before or its observed generation differs from its generation |
| `Controllers.Observed` | pkg/controllers/canary_controller.go:227 | the canary comes out up to date (observed generation equals generation), with identity, generation, spec and every other status field kept |
| `Controllers.ScheduleState` | pkg/controllers/canary_controller.go:213-225 | store, observed set, patches and events unchanged; nothing changes when interval <= 0; the canary is added to the immediate runs iff interval > 0 and it was not observed; the table grows by exactly the entry with id `nextId + 1` iff the schedule is accepted, and is otherwise unchanged |
| `Controllers.ReconcileEntries` | pkg/controllers/canary_controller.go:204-225 | on the path that is not skipped, the table is the old one with the first entry for the canary removed and, when the schedule is accepted, the new entry appended; the last id moves on by one exactly then |
| `Controllers.PatchState` | pkg/controllers/canary_controller.go:91-97 | the attempt is logged; a successful write stores the canary under its identity, a failed one leaves the store as it was; other canaries, the cron table, the observed set, the runs and the events are untouched |
| `Controllers.ReconcileSpec` | pkg/controllers/canary_controller.go:180-231 | reconciling emits no events, never lowers the cron id or shrinks the observed set or the store, and issues at most one patch and one immediate run |
| `Controllers.RemoveFirstOthers` | pkg/controllers/canary_controller.go:205-211 | removing the first job for one identity leaves every other identity's jobs as they were |
| `Controllers.RemoveFirstUnique` | pkg/controllers/canary_controller.go:205-211 | with at most one job per identity, the removal leaves none for that identity and keeps the invariant |
| `Controllers.AppendUnique` | pkg/controllers/canary_controller.go:219 | adding a job for an identity with none keeps the invariant, and that job is the identity's only one |
| `Controllers.EveryScheduleRoundTrip` | pkg/controllers/canary_controller.go:219 | the `@every Ns` schedule names exactly the canary's interval |
| `Controllers.ReconcileSkipsUnchanged` | pkg/controllers/canary_controller.go:181-202 | filtered out, not found, or already observed at the current generation: table, observed set, store and logs unchanged, and no patch |
| `Controllers.ReconcileKeepsValid` | pkg/controllers/canary_controller.go:204-228 | reconciling keeps the store keyed by identity and the cron ids increasing |
| `Controllers.ReconcileSchedules` | pkg/controllers/canary_controller.go:205-225 | at most one job per identity is preserved; no job when interval <= 0 or the schedule is refused, else exactly one `@every Ns` job; other identities' jobs untouched |
| `Controllers.ReconcileObserves` | pkg/controllers/canary_controller.go:198-228 | an immediate run starts iff interval > 0 and the identity was not observed; afterwards it is observed and one patch with observed generation = generation is issued |
| `Controllers.ReconcileFirstObservation` | pkg/controllers/canary_controller.go:213-225 | first observation with a positive interval: exactly one job and one immediate run, both for the canary as fetched, and the schedule names the interval |
| `Controllers.DeliverAllKeepsUnique` | pkg/controllers/canary_controller.go:180-231 | after any sequence of store writes and deletions by others, change notifications and completed reports, there is still at most one job per identity |
| `Controllers.ReconcileIdempotent` | pkg/controllers/canary_controller.go:198-202 | after a reconcile whose patch succeeded, the same request again changes nothing |
| `Controllers.Warning` | pkg/controllers/canary_controller.go:75 | a `Warning` event with reason `Failed` on the canary, whose message starts with the check type |
| `Controllers.FoldStatus` | pkg/controllers/canary_controller.go:65-87 | the observed generation is kept, the check time and the verdict are always set, and a transition time once set is never cleared |
| `Controllers.ReportSpec` | pkg/controllers/canary_controller.go:58-89 | reporting leaves the cron table, its ids, the observed set and the immediate runs untouched, only appends events, and never removes a canary from the store |
| `Controllers.IsTransition` | pkg/controllers/canary_controller.go:71 | a transition needs a previous history head with at least one status |
| `Controllers.TransitionFlip` | pkg/controllers/canary_controller.go:71 | against a non-empty history, exactly one of a result and the same result with the opposite verdict is a transition |
| `Controllers.AllPassIff` | pkg/controllers/canary_controller.go:67-81 | the pass accumulator holds iff every result passed, so an empty batch passes |
| `Controllers.AnyTransitionIff` | pkg/controllers/canary_controller.go:66-73 | `transitioned` holds iff some result's previous head exists, has statuses, and its first status differs from the result |
| `Controllers.TransitionSticky` | pkg/controllers/canary_controller.go:66-80 | once `transitioned` is set by a prefix of the batch it stays set for every longer prefix |
| `Controllers.FailingCounts` | pkg/controllers/canary_controller.go:74-76 | the results that get a warning are the failing ones, each as often as it occurs |
| `Controllers.Warnings` | pkg/controllers/canary_controller.go:74-76 | one `Warning`/`Failed` event per failing result, in order |
| `Controllers.ReportFolds` | pkg/controllers/canary_controller.go:58-89 | one patch of the fetched canary: Passed iff all pass, Failed iff one fails; check time always set; transition time set to the last reading iff a transition occurred; warnings appended |
| `Controllers.ReportMissingUnchanged` | pkg/controllers/canary_controller.go:60-63 | a canary missing from the store is not reported on |
| `Controllers.AggregateExamples` | pkg/controllers/canary_controller.go:81-87 | an empty batch passes; pass flags true, true, false fail |
| `Controllers.TransitionExamples` | pkg/controllers/canary_controller.go:71 | fail after head true is a transition; fail after head false is not; no head or an empty history is not |
| `Controllers.Fold` | pkg/controllers/canary_controller.go:65-87 | the loop over a batch computes exactly `FoldStatus` and `Warnings`, so together with `ReportFolds`: Passed iff all pass, transition time the last reading iff some transition, one warning per failing result, in order |
| `Controllers.CanaryReconciler.Patch` | pkg/controllers/canary_controller.go:91-97 | the attempt is logged; the store takes the canary only when the write succeeds |
| `Controllers.CanaryReconciler.Unschedule` | pkg/controllers/canary_controller.go:205-211 | the scan removes the first job for the identity and changes nothing else |
| `Controllers.CanaryReconciler.Schedule` | pkg/controllers/canary_controller.go:213-225 | with a positive interval, one immediate run unless observed before and, when the schedule is accepted, one new job with the next id; with interval <= 0 nothing changes |
| `Controllers.CanaryReconciler.Reconcile` | pkg/controllers/canary_controller.go:180-231 | the new state is `ReconcileSpec` of the old one; `notFound` iff the request passes the filters and is not in the store |
| `Controllers.CanaryReconciler.Report` | pkg/controllers/canary_controller.go:58-89 | the new state is `ReportSpec` of the old one: the fetched canary's folded status is patched and the warnings appended; a missing canary changes nothing |
| `Controllers.CanaryReconciler.RunJob` | pkg/controllers/canary_controller.go:109-126 | on a secret failure nothing is reported and the state is unchanged; otherwise the collected results are reported for the job's identity |

## Left out

- Concurrency is left out. `go job.Run()` is modelled as a log entry, `observed` is a plain
  set, and the cron table is sequential state. The race between the observed-set check and
  the cron insertion is therefore not modelled.
- `cron.SkipIfStillRunning`, tick timing and the order of `Cron.Entries()` are cron library
  behaviour and are left out. The table is kept in insertion order.
- The cron library's parse of `@every Ns` is an input (`accepts`), not modelled.
- `Job.LoadSecrets` and `Templater.Walk` treat the spec as a value. In Go, the in-place
  rewrite through shared slice backing arrays and pointers is also visible through the job's
  own copy of the canary. That aliasing is not modelled.
- Go randomises map iteration order. The env map is a sequence in a given order, so the
  first failing reference is the first in that order.
- `reflectwalk`'s own error return is not modelled, because `StructTemplater` never returns
  an error.
- Interface-typed values are not part of the tree.
- Go's `reflect` package and `reflectwalk` are not part of this model. The flag rules of
  `Value.Field`, `Value.Index`, `Value.MapIndex` and `Value.Elem` are written out from their
  documented behaviour in Go 1.x.
- `cache.AddCheck` and the history it keeps are inputs (`head`), not modelled.
- `metrics.Record`, log lines, console colours and the text of `CheckResult.String` beyond
  its two labels are left out.
- `Metric.String`, `JSONTime` marshalling and `time.Now` are float and time library
  behaviour and are left out.
- A failing Kubernetes `Get` is modelled only as a key missing from the store.
- `Status().Update` is a patch log plus a success flag. Resource versions and conflicts are
  not modelled.
- `SetupWithManager`, the Kubernetes clientset, the checker implementations (checks/helm.go
  and the rest) and the registry contents of checks/checker.go are external. The registry is
  the `checkers` sequence.
- Integer widths (`int64` generations, the interval's Go type) are unbounded integers.
  Nothing in the modelled code does arithmetic on them.
