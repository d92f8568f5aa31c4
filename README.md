# drift-monitoring, modelled in Dafny

A model of the core of drift-monitoring, a small service that watches production data for
distribution drift. The model covers two files.

`app.py` holds the monitoring service:
- A reference dataset, taken from a historical dataset.
- A sliding window of the most recent production rows (`current`).
- A counter of rows not yet part of an evaluation (`new_rows`).
- A dictionary of Prometheus gauges. The results of the statistics engine are published to it.

When `use_reference` is set, the constructor splits the history into reference and window. Each
`iterate` call does the following:
1. Appends a batch of rows to the window.
2. Waits while the window is smaller than `window_size`.
3. Otherwise drops the oldest rows down to exactly `window_size`.
4. Runs the engine on the reference and the window.
5. Publishes every result. On first sight of a metric name it creates the gauge, fixing its
   label names in sorted order.

`rebuild/utils.py` holds the rewrite:
- `create_config` builds the configuration dictionary and names the files it belongs to.
- `Monitor` picks a client's reference file from the data directory.
- `Monitor` loads the client's configuration and keeps the same sliding window, without the engine.
- A short script at the end of the file feeds a monitor 40 rows, then 10 more.

The modules:
- `Wrappers`: `Option`.
- `Strings`: Python's string order, `sorted()` as an insertion sort, and the substring test `in`.
- `Frames`: the part of pandas the window relies on. Dropping index labels `0 .. k-1` and then
  `reset_index(drop=True)` on a frame indexed `0 .. n-1` is proved equal to dropping the first `k`
  rows by position. So the window can be kept as a sequence of rows, oldest first. This module
  also holds Python's slice-bound normalisation and the specification of one window update
  (`Slide`).
- `Options`: the `MonitoringServiceOptions` record and `monitor_mapping`.
- `Registry`: the gauge dictionary and the publishing loop. This includes the errors the
  exposition library raises for a mismatched set of label names.
- `MonitoringApp`: the `MonitoringService` class. `Iterate` and `Publish` are proved against
  `Frames.Slide` and `Registry.PublishAll`. Ghost logs of the calls and of the evaluated windows
  carry the counter invariant.
- `Rebuild`: `create_config`, reference-file selection, and the `Monitor` class with its script.

## Model

| member | source | states |
|---|---|---|
| Strings.Less | app.py:125 | Python's `<` on strings: code-point lexicographic order, a proper prefix first (definition, no contract; its order properties are the four lemmas below) |
| Strings.LessIrreflexive | app.py:125 | no string sorts before itself in Python's string order |
| Strings.LessTrichotomy | app.py:125 | of two distinct strings exactly one sorts before the other |
| Strings.LessTransitive | app.py:125 | Python's string order is transitive |
| Strings.LeTotalOrder | app.py:125 | "sorts no later than" is reflexive, total, antisymmetric and transitive |
| Strings.Insert | app.py:125 | inserting a name into a list keeps the multiset of names plus the new one and grows the list by one |
| Strings.InsertSorted | app.py:125 | inserting into a sorted list gives a sorted list |
| Strings.SortStrings | app.py:125 | `sorted(names)` is sorted and a permutation of its input |
| Strings.HeadIsLeast | app.py:125 | the first element of a sorted list sorts no later than any element |
| Strings.SortedUnique | app.py:125 | two sorted lists with the same elements are equal |
| Strings.SortEqualIff | app.py:125 | `sorted(a) == sorted(b)` exactly when a and b hold the same names with the same counts |
| Strings.SortSorted | app.py:125 | sorting a sorted list leaves it as it is |
| Strings.PrefixCancel | rebuild/utils.py:33 | two paths built from the same prefix are equal only when their remainders are equal |
| Strings.Contains | rebuild/utils.py:62 | Python's `pattern in s` on strings (definition, no contract) |
| Strings.ContainsMiddle | rebuild/utils.py:62 | a string contains every piece it is built from (`pattern in before + pattern + after`) |
| Frames.Indexed | app.py:95 | labelling rows from a base label gives one entry per row |
| Frames.IndexedAt | app.py:95 | in a frame labelled from `base`, row i sits under label base + i |
| Frames.Rows | app.py:95 | reading a frame's rows gives one row per entry |
| Frames.LabelRange | app.py:108 | `[x for x in range(0, k)]` has k labels, exactly 0 .. k-1 |
| Frames.HasLabel | app.py:108 | whether a frame has a row under a label (definition, no contract) |
| Frames.Without | app.py:108 | the entries whose label is not listed, in frame order (definition, no contract) |
| Frames.Drop | app.py:108 | `drop(index=labels)`: a `KeyError` when a listed label is missing, else the rows without the listed labels (definition, no contract) |
| Frames.ResetIndex | app.py:110 | `reset_index(drop=True)`: the same rows, relabelled from 0 (definition, no contract) |
| Frames.DropReset | app.py:108-110 | the drop of labels `range(0, k)` followed by `reset_index` (definition, no contract; `DropResetLeading` states its result on the window) |
| Frames.AppendIgnoreIndex | app.py:95 | `append(rows, ignore_index=True)`: the rows of both, relabelled from 0 (definition, no contract; `AppendRows` states its result) |
| Frames.RowsIndexed | app.py:95 | renumbering loses no row and changes no order |
| Frames.AppendRows | app.py:95 | `append(..., ignore_index=True)` on a frame indexed 0 .. n-1 gives the concatenated rows, indexed from 0; both `Iterate` bodies append through it |
| Frames.WithoutLabelsBelow | app.py:108 | dropping labels all below the frame's first label removes nothing |
| Frames.WithoutLeadingLabels | app.py:108 | dropping labels 0 .. k-1 from a frame indexed base, base + 1, ... removes exactly its first k - base rows |
| Frames.LeadingLabelsPresent | app.py:108 | on a frame labelled 0 .. n-1, every label below k (k <= n) is present, so `drop` does not raise a `KeyError` |
| Frames.ResetIndexed | app.py:110 | `reset_index(drop=True)` keeps the rows and their order and relabels them from 0 |
| Frames.DropResetLeading | app.py:105-110 | on the window (a frame labelled 0 .. n-1), `drop(index=range(0, k))` then `reset_index(drop=True)` never raises and leaves exactly the rows after the first k, in order, labelled from 0 again |
| Frames.SliceBound | app.py:71-72 | Python's slice bound: negative bounds count from the end, results are clamped to 0 .. len |
| Frames.Slide | app.py:93-110 | after one update: below `window_size` the window is the old window plus the batch; otherwise it has exactly `window_size` rows, which are the newest rows of old window plus batch, in order |
| Frames.SlideBounded | app.py:100-110 | the window never holds more than `window_size` rows after an update |
| Frames.SlideBurst | app.py:107 | a batch of at least `window_size` rows pushes out the whole old window and its own oldest rows; the last `window_size` rows of the batch remain |
| Frames.SlideKeepsBatch | app.py:95-110 | a batch of at most `window_size` rows is kept whole, in order, at the tail of the window |
| Frames.SlideIdempotent | rebuild/utils.py:81-95 | trimming a trimmed window again changes nothing |
| Options.MonitorFor | app.py:41-45 | `monitor_mapping.get(name)`: the three known names and their test groups, nothing for any other name (definition, no contract) |
| Options.ResolveMonitors | app.py:68 | the monitor list resolves exactly when every name is in the table; then it has one monitor per name, in order, each the table's entry |
| Registry.Accepts | app.py:127-130 | whether the exposition library accepts a value with these labels: none for an unlabelled gauge, the same set of names for a labelled one (definition, no contract; `SetSample` succeeds exactly when it holds) |
| Registry.LabelNames | app.py:125 | `labels.keys()`: one name per label, in order |
| Registry.LabelValueFound | app.py:130 | `labels[name]` is the value stored under that name |
| Registry.LabelValue | app.py:130 | `labels[name]` (definition, no contract; `LabelValueFound` states it) |
| Registry.LabelValues | app.py:130 | the tuple of label values in the order of the gauge's label names: entry i is the value under label name i |
| Registry.MetricKey | app.py:122 | `f"evidently:{metric.name}"` (definition, no contract) |
| Registry.MetricKeyInjective | app.py:122 | distinct metric names get distinct `evidently:` keys |
| Registry.NewGauge | app.py:124-126 | a new gauge has no samples; its label names are none, or the sorted names of the first labels seen |
| Registry.AcceptedNamesPresent | app.py:130 | labels accepted by a gauge supply a value for each of its label names |
| Registry.SetSample | app.py:127-130 | setting a value succeeds exactly when the labels fit the gauge (none for an unlabelled gauge; the same set of names for a labelled one); it keeps the label names and overwrites only the one sample |
| Registry.GaugeFor | app.py:123-126 | the registered gauge under the result's key, or a new one on first sight (definition, no contract) |
| Registry.PublishOne | app.py:122-130 | one loop pass registers the key, leaves other gauges alone, fixes the label names on first sight, and sets the value when the labels fit; on an error the new gauge stays registered |
| Registry.PublishAll | app.py:121-130 | the publishing loop over all results, stopping at the first error (definition, no contract; the specification `MonitoringService.Publish` is proved equal to, with its properties in the lemmas below) |
| Registry.PublishKeepsGauges | app.py:123-126 | a registered gauge is never replaced and keeps its label names |
| Registry.PublishAddsOnlyNamed | app.py:122-126 | the registry only gains keys of metrics named in the results |
| Registry.ShapeFromFirstSight | app.py:123-126 | a new key's label names are those of the first result published under it |
| Registry.PublishOneValid | app.py:121-130 | one loop pass keeps every gauge well-formed |
| Registry.PublishValid | app.py:121-130 | the publishing loop keeps every gauge well-formed (sorted label names, one value per name in each sample key), even when it stops at an error |
| Registry.UnlabelledSingleValue | app.py:127-128 | an unlabelled gauge holds a single value |
| Registry.LabelNamesFixed | app.py:125-130 | once a name is published with labels, a later publish with a different set of label names fails and changes nothing |
| Registry.LabelCombinationsCoexist | app.py:123-130 | two results of a new metric whose non-empty labels have the same names are both published; their two label-value combinations are two samples of one gauge, and neither overwrites the other |
| MonitoringApp.GatedOutRows | app.py:96-112 | the total size of the batches of the calls that did not pass the window-size gate (definition, no contract; `MonitoringService.Iterate` keeps the counter equal to it) |
| MonitoringApp.Split | app.py:70-72 | the reference and the seeded window together are the history; the window is the last `window_size` rows; with `window_size` 0, or at least the history's length, the reference is empty and the window is the whole history |
| MonitoringApp.MonitoringService.constructor | app.py:52-82 | the seeding by `use_reference` (last `window_size` rows to the window, or the whole history to the reference and an empty window); the fingerprint is taken over the final reference only; the counter is 0 and no gauge exists |
| MonitoringApp.MonitoringService.Iterate | app.py:84-130 | the window becomes `Slide` of the old window and the batch, and holds at most `window_size` rows. A gated call adds the batch size to the counter and leaves the gauges and the engine untouched. A call that passes the gate leaves the counter as it was and runs the engine on exactly the trimmed window. An engine exception leaves the gauges alone; otherwise they are the publishing loop's result. The counter always equals the total size of the gated-out batches |
| MonitoringApp.MonitoringService.Evaluate | app.py:119-130 | an engine exception leaves the gauges alone; otherwise the gauges and the outcome are those of the publishing loop over the engine's results |
| MonitoringApp.MonitoringService.Publish | app.py:121-130 | the loop leaves the registry, and reports success, exactly as the publishing-loop specification does; every gauge stays well-formed |
| MonitoringApp.StartService | app.py:68 | an unknown monitor name gives no service; otherwise a fresh service running the engine for the resolved monitors, with counter 0 and no gauges |
| MonitoringApp.Wait | app.py:95-103 | a one-row call that leaves the window short of its size appends the row, evaluates nothing and reports waiting |
| MonitoringApp.FeedWarmUp | app.py:100-103 | with a window of 5, four one-row calls each wait and evaluate nothing |
| MonitoringApp.WarmUpScenario | app.py:93-119 | with a window of 5 fed one row per call, calls 1-4 wait, call 5 evaluates rows 0-4 and call 6 evaluates rows 1-5 |
| Rebuild.Suffix | rebuild/utils.py:33 | `filename_suffix or '_1'`: a non-empty suffix is kept; no suffix and the empty suffix both become `_1` |
| Rebuild.ReferencePath | rebuild/utils.py:33 | `f"{DATA_DIR}reference{filename_suffix or '_1'}.csv"` (definition, no contract) |
| Rebuild.ConfigPath | rebuild/utils.py:43 | `f"config/monitoring/monitoring_config{filename_suffix or '_1'}.yaml"` (definition, no contract) |
| Rebuild.MonitorConfigPath | rebuild/utils.py:68 | `f"config/monitoring/monitoring_config_{client_id}.yaml"` (definition, no contract) |
| Rebuild.CreateConfig | rebuild/utils.py:9-44 | the file path and reference path carry the resolved suffix; the numerical features are the given names and there are no categorical features |
| Rebuild.CreateConfigDefaults | rebuild/utils.py:32-40 | the service section: window 30 seeded from the reference, minimum reference 30, no moving reference, period 10, and the three monitors in order, all known to the monitor table |
| Rebuild.DefaultSuffixShared | rebuild/utils.py:33-43 | no suffix, the empty suffix and `_1` name the same files |
| Rebuild.SuffixesSeparateFiles | rebuild/utils.py:33-43 | two suffixes name the same configuration file, or the same reference file, exactly when they resolve to the same suffix |
| Rebuild.ConfigForClient | rebuild/utils.py:43-68 | `create_config` with suffix `_<client>` writes the file `Monitor` loads for that client |
| Rebuild.ReferencePattern | rebuild/utils.py:62 | `f"reference_{client_id}"` (definition, no contract) |
| Rebuild.Matching | rebuild/utils.py:62 | filtering never lengthens the list (its contents are stated by the three lemmas below) |
| Rebuild.MatchingMembers | rebuild/utils.py:62 | the filtered list holds exactly the names of the listing that contain the pattern: every kept name is in the listing and matches, and every matching name is kept |
| Rebuild.MatchingConcat | rebuild/utils.py:62 | filtering a listing made of two parts is filtering each part, in that order, so the matching names keep their listing order |
| Rebuild.MatchingEmpty | rebuild/utils.py:62 | the filtered list is empty exactly when no name contains the pattern |
| Rebuild.MatchingLast | rebuild/utils.py:62 | the last element of a non-empty filtered list is the last matching name of the listing |
| Rebuild.SelectReferenceFile | rebuild/utils.py:61-62 | no file (the `pop` raises) exactly when no name contains `reference_<client>`; otherwise the last name in the listing that does |
| Rebuild.ReferencePathForClient | rebuild/utils.py:33 | the reference path for the suffix `_<client>` is the data directory, then `reference_<client>`, then `.csv` |
| Rebuild.CreatedReferenceSelectable | rebuild/utils.py:62 | when the reference file `create_config` names for a client is in the data directory, selection finds a file |
| Rebuild.SelectionBySubstring | rebuild/utils.py:62 | the match is on a substring: for client `1`, a later `reference_10.csv` is chosen over `reference_1.csv` |
| Rebuild.Monitor.constructor | rebuild/utils.py:48-71 | the window starts empty; the reference and the configuration (possibly missing) are stored |
| Rebuild.Monitor.Iterate | rebuild/utils.py:74-95 | the window becomes `Slide` of the old window and the batch; without a loaded configuration the append happens and the call fails; with one, the window never exceeds `window_size` |
| Rebuild.OpenMonitor | rebuild/utils.py:48-71 | no monitor exactly when no reference is given and no file matches; otherwise the given reference or the selected CSV file, the client's configuration file, and an empty window |
| Rebuild.ScriptWindow | rebuild/utils.py:102-103 | with a window of 30, an empty window fed 40 rows and then 10 more holds the last 30 of the 50 rows |
| Rebuild.FeedProduction | rebuild/utils.py:102-103 | the script's two calls on a monitor with a window of 30 leave rows 20 to 49 of the production data |
| Rebuild.ScriptRun | rebuild/utils.py:100-103 | with the default configuration, 40 rows then 10 rows leave rows 20 to 49 in the window |

## Left out

- The Flask application: the `/iterate` route, `before_first_request`, and the WSGI `/metrics`
  endpoint. The route's check for a missing service is not modelled. A batch is given to
  `Iterate` as a sequence of rows.
- Reading `config.yaml` and loading the reference CSV (app.py:143-157). The service options and
  the history are inputs.
- The statistics engine. `ModelMonitoring.execute` and `metrics()` are an opaque function from
  (reference, window) to an exception or a list of results. The column mapping is not passed
  separately.
- The fingerprint. SHA-256 over `hash_pandas_object` is an opaque function of the reference rows.
- The `evidently:reference_dataset_hash` gauge: its creation (app.py:82) and the `set(1)` on
  every evaluation (app.py:120). A second service object would raise a duplicate registration
  there, and this is not modelled.
- The checks the Prometheus client makes on names, and its process-wide registry. A metric name
  that is not a valid Prometheus name is not rejected. A key already registered by another
  object, such as the hash gauge, is not rejected either.
- The commented-out throttle on `calculation_period_sec` (app.py:114-117) and the unused
  `last_run`. `min_reference_size` and `moving_reference` are only carried as configuration.
- Logging and `print` messages.
- Column schemas. A batch is appended without checking its columns (app.py:95). Rows are
  opaque, so the following are not modelled:
  - the empty frame built by `reindex_like(...).dropna()` (app.py:75) and by
    `DataFrame(columns=...)` (rebuild/utils.py:65);
  - how pandas widens columns when a batch with other columns is appended.
- Metric values are real numbers, not floating point.
- `ServiceOptions.windowSize` is a natural number. A negative `window_size` from a configuration
  file is not modelled.
- Rebuild.Monitor.Iterate: a configuration that loads but lacks `service` or `window_size` is not
  modelled. Only a configuration that fails to load is modelled.
- Rebuild.CreateConfig: writing the YAML file (rebuild/utils.py:43-44) is output and not
  modelled; the function returns the path and the dictionary.
- Rebuild.OpenMonitor: the data directory listing, `read_csv` and the configuration loader are
  parameters. The order of `os.walk`'s listing is taken as given.
- Rebuild.ScriptRun: the script constructs `Monitor(client_id="1", reference_data=None)`, which
  looks up a reference file on disk, and it reads `data/production.csv`. The model gives the
  monitor an empty reference and the default configuration. The production rows are the numbers
  0 to 49. The window's contents do not depend on the reference.
- The example request scripts under `monitoring_service/examples/` and `rebuild/examples/` are
  not part of this model.
