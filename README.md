# mle-monitor, modelled in Dafny

This project models the sequential core of **mle-monitor**, a Python tool
that keeps a protocol of machine-learning experiments and watches the
clusters they run on. The model covers these parts:

- **The experiment protocol.** This is a pickledb store whose keys are
  experiment ids, plus one reserved key, "summary". The class
  `MLEProtocol` (`mle_protocol.dfy`) adds, updates, aborts, deletes, reads
  and saves records.
  - Experiment ids are recovered from the stored keys (`protocol_load.dfy`)
    by natural sort order (`natural_keys.dfy`).
  - A new record is built with its flags, timestamps and duration estimate
    (`experiment_add.dfy`, `duration.dfy`).
  - The aggregate time series under "summary" is kept up to date
    (`summary_series.dfy`).
- **The read-only views of the protocol.**
  - The three dashboard panels, in their three versions:
    `totals.dfy`, `summary_panels.dfy`, `protocol_monitor_db.dfy`,
    `monitor_db.dfy`.
  - The summary frame and its tables: `tables.dfy`,
    `protocol_helpers.dfy`, `protocol_table.dfy`, over the shared
    helpers in `frames.dfy`, `views.dfy` and `pyops.dfy`.
- **Synchronisation with a Google Cloud Storage bucket**
  (`gcs_sync.dfy`). These are bounded retry loops. Whether each attempt
  connects, and whether the bucket and the blob exist, are inputs.
- **The utilisation trackers** (`utilisation.dfy`, `mle_tracker.py` as
  `mle_tracker.dfy`, `utils/tracker.py` as `tracker.dfy`). Each keeps four
  parallel lists, appends a sample, cuts the lists to a window and, for
  the file-backed tracker, saves and loads them.
- **The scheduler monitors.** These turn the text printed by `qstat`
  (SGE), `squeue` (Slurm) and `gcloud compute instances list` into
  per-user, per-queue/partition/node and per-machine-type counts
  (`sge.dfy`, `slurm.dfy`, `monitor_slurm.dfy`, `gcp.dfy`). They share
  `scheduler.dfy` and the pandas grouping idiom in `grouping.dfy`.

Shared foundations:

- Stored values are a small JSON-like datatype (`values.dfy`).
- Python's exceptions are the `Error` values of a `Result`.
- Python string and integer operations are defined in `text.dfy`.

Where the source changes state in place, the model does too: the
protocol, the pickledb store, the trackers, the local file and the bucket
are classes. Their methods are proved against specification functions.
Loops are `while`/`for` loops with invariants. Pure projections are
functions. The properties of all of these are stated as lemmas.

Where the code and its documented intent differ, the model follows the
code:

- A failed pull attempt removes the local protocol file.
- `delete` does not recompute the last experiment id.
- `add` asserts that the standard keys are present rather than
  filling in defaults.
- The trackers cut their lists with `[:limit]` (see Findings).
- The three versions of the dashboard panels count the cloud flag under
  "stored_in_gcloud", the name the readers use, not "stored_in_cloud",
  the name add.py writes (see Findings).

## Model

| member | source | states |
|---|---|---|
| NaturalKeys.SplitDigitsWellSplit | mle_monitor/utils/helpers.py:38 | `re.split(r"(\d+)", text)` gives an odd number of pieces, digit-free text at even positions and maximal digit runs at odd ones |
| NaturalKeys.SplitDigitsConcat | mle_monitor/utils/helpers.py:38 | the pieces of `re.split(r"(\d+)", text)` concatenate back to the text |
| NaturalKeys.Atoi | mle_monitor/utils/helpers.py:28-29 | the piece becomes an int exactly when it is all digits, with its decimal value; otherwise it is returned unchanged |
| NaturalKeys.NaturalKeyShape | mle_monitor/utils/helpers.py:32-38 | a natural key has odd length, with strs at even and ints at odd positions |
| NaturalKeys.NoDigitKey | mle_monitor/utils/helpers.py:38 | text without digits maps to `[text]` |
| NaturalKeys.DecimalKey | mle_monitor/utils/helpers.py:38 | a decimal numeral maps to `["", value, ""]` |
| NaturalKeys.NaturalKeyRoundTrip | mle_monitor/utils/helpers.py:38 | printing every int back and concatenating gives the text, when no digit run has a leading zero |
| NaturalKeys.NaturalCompareDefined | mle_monitor/utils/helpers.py:32-38 | comparing two natural keys never compares a str with an int, so it never raises TypeError |
| NaturalKeys.NaturalOrderIsNumeric | mle_monitor/utils/helpers.py:32-38 | on decimal strings, natural order is numeric order ("9" before "10") |
| NaturalKeys.NaturalLessStrictWeak | mle_monitor/utils/helpers.py:32-38 | the order `sort(key=natural_keys)` uses is asymmetric and its incomparability is transitive (a strict weak order), so sorting by it is well defined |
| NaturalKeys.NaturalSort | mle_monitor/protocol/load.py:16-26 | the sorted list is a permutation of the keys and is in natural order |
| ProtocolLoad.RemoveFirst | mle_monitor/protocol/load.py:10-14 | `remove("summary")` drops one occurrence when present; when absent, the list is unchanged and nothing is raised |
| ProtocolLoad.LoadProtocolDb | mle_monitor/protocol/load.py:5-30 | the store is loaded from the file, or is empty when there is no file; the ids and the last id are those of the stored keys |
| ProtocolLoad.ExperimentIdsAreKeys | mle_monitor/protocol/load.py:10-26 | the ids are exactly the stored keys other than "summary", each once, in natural order; without "summary" no key is lost |
| ProtocolLoad.SortedNumerals | mle_monitor/protocol/load.py:24-26 | a naturally sorted list of distinct numerals is in strictly increasing numeric order |
| ProtocolLoad.ExperimentIdsNumeric | mle_monitor/protocol/load.py:10-27 | when every id is a numeral as `add` writes them, every id parses and the ids come out in increasing numeric order |
| ProtocolLoad.LastIdIsMaximum | mle_monitor/protocol/load.py:24-29 | with numeral ids, `last_experiment_id` is the largest stored id, or 0 when no experiment is stored |
| ProtocolLoad.LastIdBounds | mle_monitor/protocol/load.py:24-29 | in naturally sorted numerals without leading zeros the last one parses, and to a value no smaller than any other |
| ProtocolLoad.NonNumericLastFails | mle_monitor/protocol/load.py:25-27 | a stored key starting past '9' (a letter, say) sorts last, so `int()` of it raises ValueError |
| ProtocolLoad.LoadPrefixedDb | mle_monitor/protocol/protocol_helpers.py:13-34 | every stored key is kept and sorted naturally; the last id is the int after the final "-" of the last key, or 0 with no keys |
| ProtocolLoad.TaggedLess | mle_monitor/protocol/protocol_helpers.py:20-30 | on ids "<prefix>-<n>" with one digit-free prefix, natural order is the order of the numbers |
| ProtocolLoad.TaggedNumber | mle_monitor/protocol/protocol_helpers.py:31 | the text after the last "-" of "<prefix>-<n>" reads back as n |
| ProtocolLoad.PrefixedLastIsMaximum | mle_monitor/protocol/protocol_helpers.py:28-34 | with ids "<prefix>-<n>" ("e-id-7" gives 7), the last id is the largest n stored |
| ProtocolStore.DGet | mle_monitor/mle_protocol.py:63-66 | `dget(name, key)` returns the field when the record and the field exist; a missing record raises KeyError |
| ProtocolStore.Get | mle_monitor/mle_protocol.py:63-64 | `get(name)` returns the entry when the key is stored, else nothing (pickledb's False) |
| ProtocolStore.WithField | mle_monitor/mle_protocol.py:110 | `dadd` sets one field of an existing record and changes no other record or key; a missing record raises KeyError |
| ProtocolStore.Without | mle_monitor/mle_protocol.py:116 | the key order after `drem` holds every other key, and loses exactly the removed key when keys are distinct |
| ProtocolStore.PickleDb.Load | mle_monitor/protocol/load.py:8 | `pickledb.load` gives the dumped keys and entries, or an empty store when there is no file |
| ProtocolStore.PickleDb.DCreate | mle_monitor/protocol/add.py:19 | `dcreate` stores an empty record, appending the key to the key order when new |
| ProtocolStore.PickleDb.DAdd | mle_monitor/mle_protocol.py:110 | `dadd` writes the field as `WithField` says; on an error the store is unchanged |
| ProtocolStore.PickleDb.PutSummary | mle_monitor/protocol/add.py:123-164 | the "summary" entry is replaced by the new series; the key is appended when new |
| ProtocolStore.PickleDb.DRem | mle_monitor/mle_protocol.py:116 | `drem` removes the record and its key; a missing record raises KeyError and nothing changes |
| ProtocolStore.PickleDb.Dump | mle_monitor/mle_protocol.py:68-70 | after `dump` the file holds exactly the keys and entries of the store |
| Protocol.CheckKeys | mle_monitor/mle_protocol.py:94-98 | the assertion loop passes exactly when every required key is present, and otherwise names a missing one |
| Protocol.Index | mle_monitor/mle_protocol.py:136 | `var_value[i]` is the i-th item of a list and raises IndexError past its end |
| Protocol.WritesStops | mle_monitor/mle_protocol.py:133-137 | once a write of the update loop raises, the later iterations do not run and nothing more changes |
| Protocol.LastWrite | mle_monitor/mle_protocol.py:133-137 | the value a field ends with is that of its last occurrence among the names |
| Protocol.WritesLastWins | mle_monitor/mle_protocol.py:133-137 | with an existing record and enough values, each named field holds the value of its last occurrence, every other field and every other record is unchanged, and no key is added or removed |
| Protocol.ShortValues | mle_monitor/mle_protocol.py:133-137 | with fewer values than names, the loop writes the fields it has values for and then raises IndexError |
| Protocol.MissingRecord | mle_monitor/mle_protocol.py:133-139 | updating a record that does not exist raises KeyError on the first write and changes nothing |
| Protocol.AbortThenStatus | mle_monitor/mle_protocol.py:108-122 | `abort` sets `job_status` to "aborted" whatever it was, `status` then reads "aborted", and no other record changes |
| Protocol.AddThenGet | mle_monitor/mle_protocol.py:92-106 | after a successful `add`, the new key is `str(last + 1)` and `get` reads back every standard field that neither `extra` nor `add` itself overwrites |
| Protocol.DeletedOnReload | mle_monitor/mle_protocol.py:114-118 | a deleted experiment is still among the ids until the next load, which drops it |
| Protocol.MLEProtocol.Loaded | mle_monitor/mle_protocol.py:41-50 | the object holds the store, ids and last id that were loaded |
| Protocol.MLEProtocol.Open | mle_monitor/mle_protocol.py:15-50 | the constructor loads the file; the ids are the stored experiment keys, and the last id is the naturally last one; a non-numeric last key raises ValueError |
| Protocol.MLEProtocol.Load | mle_monitor/mle_protocol.py:43-50 | `load` replaces the store, the ids and the last id with those read from the file; on an error they are unchanged |
| Protocol.MLEProtocol.KeyFor | mle_monitor/mle_protocol.py:58-61 | no id reads `str(last_experiment_id)`, an int id its decimal string, and a str id itself |
| Protocol.MLEProtocol.Get | mle_monitor/mle_protocol.py:52-64 | `get(id)` returns the record stored under that key, or nothing |
| Protocol.MLEProtocol.GetVar | mle_monitor/mle_protocol.py:52-66 | `get(id, var)` returns the field when the record has it and raises KeyError otherwise |
| Protocol.MLEProtocol.Status | mle_monitor/mle_protocol.py:120-122 | `status(id)` returns `job_status` of the record under `str(id)` |
| Protocol.MLEProtocol.Save | mle_monitor/mle_protocol.py:68-70 | after `save` the file holds exactly the store |
| Protocol.MLEProtocol.SaveIf | mle_monitor/mle_protocol.py:104-105 | the store is dumped when `save` is set, and the file is unchanged otherwise |
| Protocol.MLEProtocol.Add | mle_monitor/mle_protocol.py:92-106 | a missing standard or extra key fails the assertion before the store changes; otherwise the experiment is registered, and on success the new id is `last + 1`, is appended to the ids and becomes the last id (so `len` grows by one), and the store is dumped when `save` is set |
| Protocol.MLEProtocol.Abort | mle_monitor/mle_protocol.py:108-112 | `job_status` of an existing record becomes "aborted" with no state guard; a missing record raises KeyError; the store is dumped when `save` is set |
| Protocol.MLEProtocol.Delete | mle_monitor/mle_protocol.py:114-118 | the record and its key leave the store; the ids and the last id are unchanged; a missing record raises KeyError |
| Protocol.MLEProtocol.WriteAll | mle_monitor/mle_protocol.py:133-137 | the loop performs the writes the specification `Writes` describes, stopping at the first exception |
| Protocol.MLEProtocol.Update | mle_monitor/mle_protocol.py:124-141 | with a list of names each name gets its value in index order; with one name one field is written; the store is dumped when `save` is set and no error occurred |
| Protocol.MLEProtocol.Summary | mle_monitor/mle_protocol.py:143-154 | `summary` returns the table exactly when `return_table` is set; the frame is None exactly when there are no ids; the table has the columns of the chosen mode and one row per selected id |
| Protocol.MLEProtocol.Monitor | mle_monitor/mle_protocol.py:156-160 | `monitor` returns the panels of `get_monitor_db_data` and a short-mode table of the last 29 experiments (all of them when there are fewer) |
| ExperimentAdd.NewId | mle_monitor/protocol/add.py:18 | the new key reads back as `last_experiment_id + 1` and is never "summary" |
| ExperimentAdd.LastIndex | mle_monitor/protocol/add.py:49 | the position found holds the character, with no later occurrence; no position means the character does not occur |
| ExperimentAdd.Extension | mle_monitor/protocol/add.py:49 | the extension `os.path.splitext` splits off is a suffix of the path that is empty or one dot followed by text without dot or slash |
| ExperimentAdd.ExtensionOfStem | mle_monitor/protocol/add.py:49-53 | a stem followed by ".json" or ".yaml" (any dot-suffix) has that extension |
| ExperimentAdd.HiddenFileHasNoExtension | mle_monitor/protocol/add.py:49-55 | a bare ".json" has no extension, so it loads as `{}` |
| ExperimentAdd.LoadConfigs | mle_monitor/protocol/add.py:47-56 | when every configuration loads, there is one per path, in order, each the load of its path |
| ExperimentAdd.LoadConfigsStops | mle_monitor/protocol/add.py:47-56 | the first configuration that fails to load is the exception of the whole loop |
| ExperimentAdd.LoadAll | mle_monitor/protocol/add.py:47-56 | the loop loads the configurations as `LoadConfigs` specifies |
| ExperimentAdd.LoadAllConfigs | mle_monitor/protocol/add.py:39-56 | the configuration paths (one name, a list, or none) are loaded in order |
| ExperimentAdd.FinalRecord | mle_monitor/protocol/add.py:21-83 | the record holds every standard field, then every extra one (an extra key overrides a standard one), then `git_hash`, `loaded_config`, `e-hash`, the flags `retrieved_results`, `stored_in_cloud` and `report_generated` all False, `job_status` "running", `completed_jobs` 0, and the start time, duration and stop time |
| ExperimentAdd.AddedParts | mle_monitor/protocol/add.py:10-84 | a successful call is the summary update followed by the new record's writes, each of which succeeded |
| ExperimentAdd.AddedRecord | mle_monitor/protocol/add.py:18-84 | a successful call returns `last + 1`, stored under `str(last + 1)`, with the fields `FinalRecord` describes |
| ExperimentAdd.OthersUnchanged | mle_monitor/protocol/add.py:10-84 | whatever happens, every record other than "summary" and the new one is unchanged |
| ExperimentAdd.SummaryOnly | mle_monitor/protocol/add.py:114-165 | the summary update changes no record other than "summary" |
| ExperimentAdd.FillOnly | mle_monitor/protocol/add.py:18-84 | registering the record changes no record other than the new one |
| ExperimentAdd.AddedNeedsFields | mle_monitor/protocol/add.py:15-79 | a successful call needs `experiment_type`, `config_fname`, `time_per_job` and `num_job_batches` |
| ExperimentAdd.AddedDuration | mle_monitor/protocol/add.py:78-111 | the stored duration is the carried time per job times the number of batches, as "d:hh:mm" that reads back to those three numbers |
| ExperimentAdd.NoTypeNoChange | mle_monitor/protocol/add.py:15 | without `experiment_type` the call raises KeyError before anything changes |
| ExperimentAdd.Restrict | mle_monitor/protocol/add.py:22-27 | the fields of a record whose names are in a set, with their values |
| ExperimentAdd.SetField | mle_monitor/protocol/add.py:23 | `dadd` on an existing record keeps it a record |
| ExperimentAdd.Put | mle_monitor/protocol/add.py:23 | one `dadd` on the new record, with the key order unchanged |
| ExperimentAdd.FlagWrites | mle_monitor/protocol/add.py:58-76 | the seven writes of the configurations, the hash, the flags, the status and the job count give the flagged record |
| ExperimentAdd.PutAll | mle_monitor/protocol/add.py:22-27 | writing a dict field by field gives the record merged with it, later writes winning |
| ExperimentAdd.PutFlags | mle_monitor/protocol/add.py:58-76 | the loop of writes leaves the flagged record |
| ExperimentAdd.InitialWrites | mle_monitor/protocol/add.py:18-37 | creating the record, then writing the standard fields, the extra ones and the git hash, gives the initial record |
| ExperimentAdd.PutInitial | mle_monitor/protocol/add.py:18-37 | the record is created, appended to the key order, and filled with the initial fields |
| ExperimentAdd.TimeWrites | mle_monitor/protocol/add.py:81-83 | the three writes store the start time, the duration and the stop time |
| ExperimentAdd.PutTimes | mle_monitor/protocol/add.py:81-83 | the writes leave the timed record |
| ExperimentAdd.PutFlagsAndTimes | mle_monitor/protocol/add.py:58-83 | the flags and then the time estimate are written; an estimate that fails leaves the flagged record and raises |
| ExperimentAdd.FinishOverwrites | mle_monitor/protocol/add.py:58-83 | the finishing writes depend only on the record they start from, not on what the store held under that key |
| ExperimentAdd.FillRecord | mle_monitor/protocol/add.py:18-84 | the method leaves the store and the result that `Fill` specifies |
| ExperimentAdd.ProtocolExperiment | mle_monitor/protocol/add.py:10-84 | `protocol_experiment` leaves the store and returns or raises what `Experiment` specifies: the summary update, then the new record |
| Duration.CarryTotal | mle_monitor/protocol/add.py:91-94 | the carried minutes are below 60 and hours below 24, and days*1440 + hours*60 + minutes equals batches times the time per batch in minutes |
| Duration.CarryUnique | mle_monitor/protocol/add.py:91-94 | any split of the same total with minutes below 60 and hours below 24 is the carried one |
| Duration.Pad2 | mle_monitor/protocol/add.py:98-101 | a one-character part gets a leading "0"; longer parts are unchanged |
| Duration.ParseSchedule | mle_monitor/protocol/add.py:91-94 | "days:hours:minutes" splits into three ints and the batch count is a number, else the error of the failing step; the result has hours below 24 and minutes below 60 |
| Duration.ScheduleTotal | mle_monitor/protocol/add.py:91-94 | a parsed schedule is the time per batch, in minutes, times the number of batches |
| Duration.DurationTextRoundTrip | mle_monitor/protocol/add.py:95-109 | the duration text splits on ":" into exactly three parts that read back as days, hours and minutes, whether days are padded (monitor_db) or not (add) |
| SummarySeries.KeyOf | mle_monitor/protocol/add.py:130-149 | `series[experiment_type]` finds the type exactly when it is a str key of the series; otherwise KeyError |
| SummarySeries.AppendLast | mle_monitor/protocol/add.py:146-148 | `m[k].append(m[k][-1] + delta)` extends series `k` by its last value plus `delta`; a missing key or an empty series raises |
| SummarySeries.AppendZero | mle_monitor/protocol/add.py:161-162 | `m[k].append(0)` extends series `k` by 0; a missing key raises KeyError |
| SummarySeries.IncAt | mle_monitor/protocol/add.py:130-163 | `m[type][idx] += 1` bumps one point of one series (index -1 is the last); a missing type or an index out of range raises |
| SummarySeries.IndexOf | mle_monitor/protocol/add.py:155 | `days.index(day)` is the first position holding the day |
| SummarySeries.FreshIncrement | mle_monitor/protocol/add.py:127-130 | the fresh dict `{"all": [1]}` with `[0]` per type, after the bump, holds `[1]` for the created type and `[0]` for the others |
| SummarySeries.CreateValid | mle_monitor/protocol/add.py:123-139 | the first add of a known type creates `time=[t]`, `day=[d]`, `total_exp` and `day_exp` with `[1]` for "all" and the type and `[0]` for the others, and the entry satisfies every series invariant |
| SummarySeries.CreateUnknownType | mle_monitor/protocol/add.py:126-131 | a first add of an unknown type raises KeyError after the time point is stored and before any count is stored |
| SummarySeries.EachKeyStops | mle_monitor/protocol/add.py:147-162 | once the loop over the types raises, the remaining types change nothing |
| SummarySeries.EachKeyRepeatsLast | mle_monitor/protocol/add.py:147-148 | the loop repeats the last value of every type series |
| SummarySeries.EachKeyAppendsZero | mle_monitor/protocol/add.py:161-162 | the loop appends 0 to every type series |
| SummarySeries.SumBump | mle_monitor/protocol/add.py:156 | bumping one bucket raises the sum of its series by one |
| SummarySeries.ExtendTotalsIs | mle_monitor/protocol/add.py:143-150 | on a known type the update of the cumulative series, step by step, equals the written-out series `AfterKnown`: one more point on "all" and on each type, the added type bumped by one, with no error |
| SummarySeries.ExtendTotalsKnown | mle_monitor/protocol/add.py:143-150 | a later add of a known type extends every series by one point: "all" and the type go up by one, and the other types repeat their last value |
| SummarySeries.AppendNonDecreasing | mle_monitor/protocol/add.py:146-149 | appending a value no smaller than the last keeps a series non-decreasing |
| SummarySeries.TotalsAppend | mle_monitor/protocol/add.py:143-150 | one such step keeps the cumulative invariant: every series has one point per add, "all" counts 1, 2, 3, … and equals the sum of the type series at each point, and every type series is non-decreasing |
| SummarySeries.ExtendTotalsValid | mle_monitor/protocol/add.py:143-150 | a later add of a known type keeps the cumulative invariant with one more point, the type's count rising by one |
| SummarySeries.KnownDayStep | mle_monitor/protocol/add.py:154-157 | the daily invariant survives an add on a listed day: the day buckets still add up to the cumulative counts of each type |
| SummarySeries.NewDayStep | mle_monitor/protocol/add.py:158-164 | the daily invariant survives an add on a new day: the days stay distinct, every type has one bucket per day and the buckets add up |
| SummarySeries.KnownDayAdd | mle_monitor/protocol/add.py:154-157 | an add on a day already listed leaves the days as they are and bumps only bucket `days.index(day)` of the type |
| SummarySeries.NewDayAdd | mle_monitor/protocol/add.py:158-164 | an add on a new day appends the day, appends a 0 bucket to every type and then sets the type's new last bucket to 1 |
| SummarySeries.ExtendDaysValid | mle_monitor/protocol/add.py:152-164 | the per-day part of a later add gives exactly the days and buckets of KnownDayAdd or NewDayAdd, and keeps the daily invariant: distinct days, one bucket per day per type, `day_exp["all"]` frozen at `[1]` |
| SummarySeries.ExtendValid | mle_monitor/protocol/add.py:140-164 | every later add of a known type keeps the whole entry valid, appends the time point, gives the cumulative series of ExtendTotalsIs, and leaves the days and bumps the day's bucket on a listed day, or appends the day with its new buckets otherwise |
| SummarySeries.ExtendTotalsUnknown | mle_monitor/protocol/add.py:143-150 | a later add of an unknown type raises KeyError after "all" and every type series have already gained a point |
| SummarySeries.ExtendUnknownType | mle_monitor/protocol/add.py:143-150 | that KeyError leaves a stored entry in which "all" no longer equals the sum of the types |
| SummarySeries.DayBucketsCountAll | mle_monitor/protocol/add.py:133-164 | in a valid entry the day buckets of the three types add up to the number of adds |
| SummarySeries.FreshCounts | mle_monitor/protocol/add.py:127-129 | the loop builds `{"all": [1]}` with `[0]` for every type |
| SummarySeries.AppendEach | mle_monitor/protocol/add.py:147-162 | the loop over the types does what `EachKey` specifies |
| SummarySeries.ExtendTotalsSteps | mle_monitor/protocol/add.py:143-150 | the steps of the cumulative update do what `ExtendTotals` specifies |
| SummarySeries.ExtendDaysSteps | mle_monitor/protocol/add.py:152-164 | the steps of the per-day update, with the `try` around `index`, do what `ExtendDays` specifies |
| SummarySeries.AddExperimentSummary | mle_monitor/protocol/add.py:114-165 | `add_experiment_summary` creates or extends the "summary" entry as `AddSummary` specifies, keeping the partial writes when it raises, and appends "summary" to the key order when new |
| Totals.TotalsStops | mle_monitor/protocol/summary.py:49-56 | once the loop raises on an id, the result for the whole id list is that same error |
| Totals.TryFlags | mle_monitor/protocol/summary.py:63-68 | the `try` block adds the three flags in order and stops at the first read that raises, keeping the sums already made |
| Totals.GetTotalExperiments | mle_monitor/protocol/summary.py:46-83 | the counting loop returns the rendered counts of TotalsOf, or the error of the first id whose status or resource is missing |
| Totals.TotalsDefined | mle_monitor/protocol/summary.py:51-61 | the counts exist exactly when every id has both a "job_status" and an "exec_resource" |
| Totals.TotalsPartition | mle_monitor/protocol/summary.py:51-61 | every id is counted under exactly one status (run, done, aborted) and exactly one resource (sge, slurm, gcp, local); all counts are non-negative |
| Totals.RenderReadsBack | mle_monitor/protocol/summary.py:70-82 | the returned dict has the eleven keys, and each value parses back as the count it shows ("total" is the number of ids) |
| Totals.PlaceholderIsEmptyCount | mle_monitor/protocol/summary.py:8-20 | the all-"0" placeholder shown with no experiments is what counting no ids gives |
| Totals.FlagsAsAddedPrefix | mle_monitor/protocol/add.py:70-72 | records whose three flags are booleans, as add.py writes them, stay so on every prefix of the id list |
| Totals.FlagCountsCorrected | mle_monitor/protocol/summary.py:63-68 | reading the flag add.py writes ("stored_in_cloud"), the three flag counts are the numbers of records whose flag is True |
| Totals.FlagCountsAsWritten | mle_monitor/protocol/summary.py:65 | reading "stored_in_gcloud", which records made by add.py lack, the cloud and retrieved counts stay 0 for every id list |
| Totals.RetrievedMissedAsWritten | mle_monitor/protocol/summary.py:63-68 | a record with retrieved results counts 0 retrieved as written and 1 with the corrected flag name |
| Views.Project | mle_monitor/protocol/summary.py:91-100 | a dict literal of reads succeeds exactly when every read does, and then has exactly the listed output keys |
| Views.ProjectError | mle_monitor/protocol/summary.py:91-100 | a failing dict literal fails with the error of the first read that fails, every earlier read having succeeded |
| Views.ProjectValues | mle_monitor/protocol/summary.py:91-100 | with distinct output keys, each key of the dict shows the value of its own read |
| Views.Placeholder | mle_monitor/protocol/summary.py:21-41 | a placeholder dict has exactly the listed keys, each showing the given value |
| SummaryPanels.TimeShape | mle_monitor/protocol/summary.py:86-101 | the timing panel exists exactly when the record has all ten fields, shows each under its new name, and a missing record raises TypeError |
| SummaryPanels.LastShape | mle_monitor/protocol/summary.py:104-117 | the last-experiment panel shows "e_id" as the id and each of the seven fields under its new name, exactly when the record has them; a missing record raises TypeError |
| SummaryPanels.PlaceholdersMatchPanels | mle_monitor/protocol/summary.py:1-43 | the three panels have the same keys with and without experiments |
| SummaryPanels.MonitorTotal | mle_monitor/protocol/summary.py:3-7 | with experiments the totals panel is the rendered count over all ids, with the cloud flag read as "stored_in_gcloud" as the source reads it |
| SummaryPanels.CloudCountsShowZero | mle_monitor/protocol/summary.py:63-68 | for records without a "stored_in_gcloud" field, as add.py writes every record, the panel shows "0" stored in the cloud and "0" retrieved |
| SummaryPanels.MonitorCounts | mle_monitor/protocol/summary.py:1-83 | the totals panel shows non-negative counts whose statuses, and separately whose resources, add up to the number of experiments |
| ProtocolMonitorDb.TimeShape | mle_monitor/protocol/monitor_db.py:81-93 | the timing panel exists exactly when all eight fields are there, shows each under its new name ("est_duration" is "duration"), and a missing record raises KeyError |
| ProtocolMonitorDb.LastShape | mle_monitor/protocol/monitor_db.py:96-106 | exactly "e_id" (the id) and five renamed fields, present exactly when the record has them; a missing record raises KeyError |
| ProtocolMonitorDb.MonitorTotal | mle_monitor/protocol/monitor_db.py:1-7 | with experiments the totals panel is the rendered count over all ids, with the cloud flag read as "stored_in_gcloud" as the source reads it |
| ProtocolMonitorDb.PlaceholdersMatchPanels | mle_monitor/protocol/monitor_db.py:1-38 | the last-experiment placeholder has the panel's keys; the timing panel has one key, "job_status", that the placeholder lacks |
| MonitorDb.SyncSearchJobs | mle_monitor/monitor/monitor_db.py:91-103 | a search whose schedule reads "sync" runs `num_search_batches` batches of `evals * seeds` jobs, whatever other entries the search configuration and resources hold |
| MonitorDb.AsyncSearchDivision | mle_monitor/monitor/monitor_db.py:104-110 | in an asynchronous search `total_jobs / max_running_jobs` raises TypeError for a str total whatever the divisor, and ZeroDivisionError for a number over zero |
| MonitorDb.OtherTypesJobs | mle_monitor/monitor/monitor_db.py:111-118 | several configurations give `len(config_fnames) * num_seeds` jobs in one batch; any other type one job in one batch; jobs per batch "-" |
| MonitorDb.TimeEstimate | mle_monitor/monitor/monitor_db.py:120-152 | with a "time_per_job" the panel shows it and the duration carried over the batches, in two-digit days, hours and minutes; without one the four timing fields are "-" |
| MonitorDb.Basename | mle_monitor/monitor/monitor_db.py:175 | the file name of a path exists exactly for a str, holds no "/", is a suffix of the path preceded by "/" when shorter, and is the whole path when there is no "/" |
| MonitorDb.BasenameAfterSlash | mle_monitor/monitor/monitor_db.py:175 | the basename of `dir + "/" + name` is `name` when the name holds no "/" |
| MonitorDb.BareName | mle_monitor/monitor/monitor_db.py:175 | a name without "/" is its own last part |
| MonitorDb.LastShape | mle_monitor/monitor/monitor_db.py:166-204 | the six common entries are those of BaseShape; a search adds exactly its type, metrics and parameters, several configurations add their file names, any other type adds nothing |
| MonitorDb.BaseShape | mle_monitor/monitor/monitor_db.py:170-187 | "e_id" is the id; "e_dir", "e_type" and "e_script" are the stored directory, type and script; "e_config" is the basename of `base_train_config`; "report_gen" is False when the configuration has none |
| MonitorDb.ExtraKeys | mle_monitor/monitor/monitor_db.py:189-203 | the entries a type adds are disjoint from the common six: a search's three, the file names of several configurations, none otherwise |
| MonitorDb.DbDataShape | mle_monitor/monitor/monitor_db.py:5-42 | with experiments the totals panel is the count over all ids with the cloud flag read as "stored_in_gcloud" as the source reads it, the last panel holds the placeholder's keys and the timing panel exactly the placeholder's keys |
| Frames.TailStart | mle_monitor/protocol/tables.py:27-31 | where `ids[-tail:]` starts: 0 for a zero or too large tail, `n - tail` for a positive one, and counted from the front for a negative one |
| Frames.Tail | mle_monitor/protocol/tables.py:27-31 | the selected ids are a suffix of the ids: all of them for None or 0, the last `tail` (all when fewer) for a positive tail, and all but the first `-tail` (none when fewer) for a negative one |
| Frames.ResourceLabel | mle_monitor/protocol/tables.py:115-122 | the resource column is SGE, Slurm or GCP for the three known resources and "Local" exactly for anything else |
| Frames.StatusCell | mle_monitor/protocol/tables.py:133-138 | a spinner exactly for "running", the check mark exactly for "completed", the cross otherwise |
| Frames.Reversed | mle_monitor/protocol/tables.py:113 | `reversed(df.index)` visits row `n - 1 - i` at step `i` |
| Frames.MapAll | mle_monitor/protocol/tables.py:31-44 | appending `f(x)` for every `x` succeeds exactly when every call does, giving the results in order; otherwise it raises the error of the first call that fails |
| Frames.MapAllStep | mle_monitor/protocol/tables.py:31-44 | one more successful call appends its result |
| Frames.MapAllStops | mle_monitor/protocol/tables.py:31-44 | a failure on a prefix is the failure of the whole loop |
| Frames.MapEach | mle_monitor/protocol/tables.py:31-44 | the append loop computes MapAll |
| Frames.TableFrom | mle_monitor/protocol/tables.py:91-167 | a table has the given headers; no frame gives no rows; a frame gives one row per frame row, newest first, exactly when every row's cells can be made |
| Frames.DrawTable | mle_monitor/protocol/tables.py:112-167 | the row loop computes TableFrom |
| Tables.ReadRow | mle_monitor/protocol/tables.py:32-44 | an experiment's row exists exactly when its record has all twelve fields; a missing record raises KeyError |
| Tables.Summary | mle_monitor/protocol/tables.py:16-73 | None exactly when there are no ids; otherwise the frame of the selected tail of ids |
| Tables.ProtocolSummary | mle_monitor/protocol/tables.py:16-73 | the read loop and the column rewrites compute Summary |
| Tables.SummaryFrame | mle_monitor/protocol/tables.py:31-63 | the frame has one row per selected id in stored order: the id, the start time cut to 5 and the purpose to 30 characters, every other column as the record holds it |
| Tables.TypeLabel | mle_monitor/protocol/tables.py:124-131 | the three known types become search, config and single; any other type is shown as stored |
| Tables.ProgressCells | mle_monitor/protocol/tables.py:140-141 | full mode adds one progress cell, built from `int` of the jobs and completed jobs; otherwise none |
| Tables.TableRow | mle_monitor/protocol/tables.py:140-167 | a row has one cell per column |
| Tables.ProtocolTable | mle_monitor/protocol/tables.py:91-171 | `protocol_table` draws the table of TableFrom with these headers and rows |
| Tables.TableShape | mle_monitor/protocol/tables.py:91-171 | 10 columns, 11 in full mode; row `i` is frame row `n - 1 - i` with status, id, date, project cut to 10, purpose cut to 15 (full) or 25, type and resource labels |
| LegacyTable.ResourceCells | mle_monitor/protocol/protocol_table.py:45-58 | full mode adds `str` of the jobs, CPUs, GPUs and seeds, which never raises on integers; otherwise no cells |
| LegacyTable.TableRow | mle_monitor/protocol/protocol_table.py:45-68 | a row has one cell per column, starting with status, id, date, project cut to 20, purpose cut to 25, the type as stored and the resource label |
| LegacyTable.GenerateProtocolTable | mle_monitor/protocol/protocol_table.py:6-72 | `generate_protocol_table` draws the table of GenerateTable |
| LegacyTable.TableShape | mle_monitor/protocol/protocol_table.py:6-72 | 7 columns, 11 in full mode; every row has one cell per column; rows of text and integer counts never raise |
| ProtocolHelpers.TypeLabel | mle_monitor/protocol/protocol_helpers.py:68-74 | the type column is "search" exactly for a search, "multi" exactly for several experiments, "other" otherwise |
| ProtocolHelpers.OrElse | mle_monitor/protocol/protocol_helpers.py:56-65 | a `try` around a read gives the value read, or the fallback when the read raises |
| ProtocolHelpers.ReadPlain | mle_monitor/protocol/protocol_helpers.py:50-55 | the six plain reads succeed exactly when the record exists and has those six fields |
| ProtocolHelpers.Summary | mle_monitor/protocol/protocol_helpers.py:37-133 | None exactly when there are no ids; otherwise the frame of the selected tail of ids |
| ProtocolHelpers.ProtocolSummary | mle_monitor/protocol/protocol_helpers.py:37-133 | the read loop and the column rewrites compute Summary |
| ProtocolHelpers.RowOfKey | mle_monitor/protocol/protocol_helpers.py:49-120 | a key's row: the ID is the text after the key's last "-", a missing `num_seeds` shows "-" and a missing `num_gpus` 0, the type is labelled and the jobs are counted by type |
| ProtocolHelpers.SummaryRow | mle_monitor/protocol/protocol_helpers.py:105-122 | frame row `i` is the row of the `i`-th selected key with its date cut to 5 and its purpose to 30 characters |
| ProtocolHelpers.JobsByType | mle_monitor/protocol/protocol_helpers.py:77-103 | a search runs batches times evals times seeds jobs when its configuration or schedule is missing or its schedule is "sync", total evals times seeds otherwise; several experiments run configs times seeds jobs; any other type one job |
| PyOps.Mul | mle_monitor/protocol/protocol_helpers.py:83-85 | `a * b` multiplies two numbers (bools as 0 and 1); a failure is TypeError |
| PyOps.IntOf | mle_monitor/protocol/tables.py:141 | `int` keeps an integer and parses a string |
| PyOps.PyStr | mle_monitor/protocol/tables.py:150-152 | `str` keeps a string, and an integer's text parses back to it |
| PyOps.Precision | mle_monitor/protocol/tables.py:62-63 | `"{:.n}".format` works exactly on strings and gives a prefix of at most `n` characters, the whole string when it is short enough |
| PyOps.Slice | mle_monitor/protocol/tables.py:146-147 | `v[:n]` works on strings and lists; on a string it gives a prefix of at most `n` characters |
| Text.NatToString | mle_monitor/protocol/summary.py:70-82 | `str(n)` of a count is a numeral without leading zero whose value is `n`; one digit exactly below 10 |
| Text.DecimalRoundTrip | mle_monitor/protocol/load.py:27 | `str(int(s))` gives back a numeral without leading zero |
| Text.CanonicalInjective | mle_monitor/protocol/load.py:25-27 | two such numerals are equal exactly when their values are |
| Text.ParseIntRoundTrip | mle_monitor/protocol/add.py:114-165 | `int(str(i))` is `i` for every integer |
| Text.SplitOn | mle_monitor/protocol/protocol_helpers.py:31 | `s.split(sep)` has at least one piece and no piece holds `sep` |
| Text.SplitJoin | mle_monitor/protocol/protocol_helpers.py:31 | joining the pieces of `s.split(sep)` with `sep` gives `s` back |
| Text.JoinSplit | mle_monitor/monitor/monitor_db.py:124 | splitting a join of pieces free of `sep` gives the pieces back |
| Text.SplitOnMany | mle_monitor/resource/sge.py:50-52 | `s.split(sep)` has more than one piece exactly when `sep` occurs in `s` |
| Text.LastPartSuffix | mle_monitor/monitor/monitor_db.py:175 | `s.split(sep)[-1]` is a suffix of `s`, preceded by `sep` when shorter than `s` |
| Text.LastPartAfter | mle_monitor/monitor/monitor_db.py:175 | the last piece of `x + sep + b` is `b` when `b` holds no `sep` |
| Text.Tokens | mle_monitor/resource/sge.py:48-49 | `filter(None, s.split(" "))` and `s.split()` give non-empty pieces free of separators |
| Text.TokensAreRuns | mle_monitor/resource/sge.py:48-49 | the pieces are exactly the maximal separator-free runs of `s`, in order: `s` is the pieces interleaved with runs of separators, and the runs between two pieces are not empty |
| Text.Take | mle_monitor/protocol/tables.py:62-63 | `s[:n]` is the prefix of length `min(n, len(s))` |
| Sorting.Insert | mle_monitor/utils/helpers.py:32-38 | inserting into a sorted list keeps it sorted and adds exactly the new element |
| Sorting.SortBy | mle_monitor/utils/helpers.py:32-38 | sorting with a strict weak order gives an ordered permutation of the input |
| GcsSync.FirstConnect | mle_monitor/protocol/gcs_sync.py:30-40 | the first attempt in `range(tries)` from `from` on that reaches the service; None exactly when none does |
| GcsSync.PullStatus | mle_monitor/protocol/gcs_sync.py:30-62 | `get_gcloud_db` returns 1 exactly when some attempt reaches the bucket (a missing blob counts), else 0 |
| GcsSync.PulledFile | mle_monitor/protocol/gcs_sync.py:30-62 | with attempts made the local file ends up as the remote file or removed; with none it is untouched |
| GcsSync.PushStatus | mle_monitor/protocol/gcs_sync.py:81-96 | `send_gcloud_db` returns 1 exactly when the bucket exists, the local file exists and some attempt connects |
| GcsSync.GetGcloudDb | mle_monitor/protocol/gcs_sync.py:14-62 | ImportError without the library, leaving the file alone; otherwise the status of PullStatus and the file of PulledFile |
| GcsSync.SendGcloudDb | mle_monitor/protocol/gcs_sync.py:65-96 | ImportError without the library; otherwise the status of PushStatus; the blob becomes the local file exactly on success and is unchanged otherwise |
| GcsSync.PushThenPull | mle_monitor/protocol/gcs_sync.py:14-96 | a successful pull after a successful push brings back the file that was pushed |
| GcsSync.PullLeavesNoStaleFile | mle_monitor/protocol/gcs_sync.py:41-46 | a pull that makes attempts never leaves the old local file behind: it is the remote file or gone |
| Utilisation.Divide | mle_monitor/mle_tracker.py:16-17 | the ratio exists exactly for two present numbers with a non-zero denominator, and times the denominator gives the numerator; a zero denominator raises ZeroDivisionError |
| Utilisation.WindowAsWritten | mle_monitor/mle_tracker.py:26-31 | `xs[:limit]` is the prefix of at most `limit` entries: the oldest ones |
| Utilisation.Window | mle_monitor/mle_tracker.py:26-31 | the window as intended: the suffix of at most `limit` entries, the newest ones |
| Utilisation.SampleAligned | mle_monitor/mle_tracker.py:12-31 | as written, a complete sample keeps the four lists aligned and within the limit; below the limit each list gains exactly the sample just taken, at or past it the `[:limit]` window cuts the sample away, so a full history stays unchanged |
| Utilisation.SampleKeptAsIntended | mle_monitor/mle_tracker.py:26-31 | with the documented window of the newest entries, a complete sample keeps the lists aligned, grows them up to the limit and ends each with the sample just taken (the corrected half of the tracker finding) |
| Utilisation.LastKept | mle_monitor/mle_tracker.py:26-31 | the window of a list with a new last entry ends with that entry |
| Utilisation.ZeroMemoryMisaligns | mle_monitor/mle_tracker.py:14-16 | a zero total memory raises after both timestamps were appended, leaving the timestamp lists one entry longer than the ratio lists |
| Utilisation.NewestSampleDropped | mle_monitor/mle_tracker.py:28-31 | as written, once a list holds at least `limit` entries the window drops the new entry and keeps the first `limit`, so a full list stops changing |
| Utilisation.OldestSampleDropped | mle_monitor/mle_tracker.py:26-31 | as intended, the window of a full list drops the oldest entry and keeps the new one |
| MleTracker.MLETracker.constructor | mle_monitor/mle_tracker.py:2-10 | a new tracker has four empty lists and a limit of 100000 |
| MleTracker.MLETracker.MovingWindow | mle_monitor/mle_tracker.py:26-31 | every list is cut to `[:limit]`, its first `limit` entries, and nothing else changes |
| MleTracker.MLETracker.Update | mle_monitor/mle_tracker.py:12-24 | the history becomes the one Sample computes from the old history, including the partial appends when a read raises, and the `[:limit]` window after a complete sample; a complete sample leaves a full aligned history unchanged; the result is the new history or that exception |
| FileTracker.TrackerFile.constructor | mle_monitor/utils/tracker.py:35-55 | the stored file starts as given |
| FileTracker.Stack | mle_monitor/utils/tracker.py:52-54 | stacking aligned lists gives one row per sample |
| FileTracker.Columns | mle_monitor/utils/tracker.py:39-42 | the four columns of stored rows are aligned lists, one entry per row |
| FileTracker.Loaded | mle_monitor/utils/tracker.py:35-48 | `load()` gives aligned lists: the stored columns, or four empty lists when there is no file |
| FileTracker.SaveThenLoad | mle_monitor/utils/tracker.py:35-55 | a saved aligned history loads back unchanged |
| FileTracker.MisalignmentPersists | mle_monitor/utils/tracker.py:13-20 | below the limit, lists that do not line up never line up again after a complete sample, so every later save raises |
| FileTracker.Tracker.constructor | mle_monitor/utils/tracker.py:6-11 | a new tracker has a limit of 100000 and the history loaded from its file |
| FileTracker.Tracker.Load | mle_monitor/utils/tracker.py:35-48 | the history becomes Loaded of the file |
| FileTracker.Tracker.Save | mle_monitor/utils/tracker.py:50-55 | aligned lists are written to the file; lists of different lengths raise ValueError and leave the file alone |
| FileTracker.Tracker.MovingWindow | mle_monitor/utils/tracker.py:28-33 | every list is cut to `[:limit]`, its first `limit` entries, and nothing else changes |
| FileTracker.Tracker.Update | mle_monitor/utils/tracker.py:13-26 | the history as in Sample, with the `[:limit]` window, so a complete sample leaves a full aligned history unchanged; then the file is saved whatever `save` says; a read error or misaligned lists leave the file unchanged and raise |
| Grouping.Unique | mle_monitor/resource/sge.py:68 | `unique()` holds every key once, exactly the keys that occur, no more values than jobs |
| Grouping.UniquePrefix | mle_monitor/resource/sge.py:68 | the keys of a prefix come first, in the same order |
| Grouping.CountWhere | mle_monitor/resource/sge.py:70-78 | the number of jobs meeting a condition is at most the number of jobs |
| Grouping.CountStep | mle_monitor/resource/sge.py:70-78 | one more job adds one exactly when it meets the condition |
| Grouping.AbsentGroup | mle_monitor/resource/sge.py:70 | a key no job has selects no job |
| Grouping.TotalStep | mle_monitor/resource/sge.py:69-78 | one more job adds one to the total over distinct groups exactly when its key is among them and it meets the condition |
| Grouping.GroupsPartition | mle_monitor/resource/sge.py:68-78 | the groups of `unique()` split the jobs: their counts add up to the count over all jobs |
| Grouping.ForEach | mle_monitor/resource/sge.py:69-78 | the append loop gives `f(x)` for every `x`, in order |
| Grouping.CountAll | mle_monitor/resource/sge.py:72 | `shape[0]` counts every job |
| Grouping.GroupSplit | mle_monitor/resource/sge.py:59-78 | when every job meets exactly one of three conditions, each group's three counts add up to its jobs |
| Grouping.Filter | mle_monitor/resource/sge.py:92 | `df[cond]` keeps exactly the jobs meeting the condition, as many as CountWhere |
| Grouping.NeverCounted | mle_monitor/resource/slurm.py:71 | a condition no job meets counts nothing in any group |
| Grouping.GroupAtMost | mle_monitor/resource/slurm.py:66-71 | conditions no two of which hold together count at most the group's jobs |
| Scheduler.OutputLines | mle_monitor/resource/sge.py:35-37 | `out.split("\n")[skip:-1]`: the lines after the header lines and before the last piece; none when there are too few |
| Scheduler.RowsOf | mle_monitor/resource/sge.py:69-78 | one row per listed user, in order, each with that user's counts |
| Scheduler.RowsTotal | mle_monitor/resource/sge.py:69-78 | the rows' totals add up to the jobs of the listed users |
| Scheduler.UserRowsTotal | mle_monitor/resource/sge.py:68-78 | the user rows account for every job once |
| Scheduler.UserRowsCover | mle_monitor/resource/sge.py:68-78 | users appear once each and every user with a job has a row |
| Scheduler.MoreJobsStrictWeak | mle_monitor/resource/sge.py:81 | "more jobs" is a strict weak order |
| Scheduler.ByTotal | mle_monitor/resource/sge.py:81-86 | the rows reordered by `argsort(-total)`: a permutation of the rows with non-increasing totals |
| Scheduler.SortNatural | mle_monitor/resource/slurm.py:86-87 | `sort(key=natural_keys)` gives a permutation in natural order |
| Scheduler.SortNaturalOptional | mle_monitor/resource/sge.py:93-94 | sorting names that may be None succeeds exactly when none is None (a None key raises TypeError), giving a permutation in natural order |
| Sge.ParseJob | mle_monitor/resource/sge.py:47-64 | a `qstat` line parses exactly when it has at least 8 tokens: the user is the fourth, the job is interactive exactly when QLOGIN occurs and the state is "r", running exactly when it does not and the state is "r"; a queue and a node exactly when the eighth token holds "@", and then the queue is the text before the first "@" and the node the next piece without its last character |
| Sge.HostRowsOf | mle_monitor/resource/sge.py:96-103 | one row per name, in order, each with that name as host, its total the number of jobs on that host, its run and login counts the running and interactive jobs there |
| Sge.HostsCover | mle_monitor/resource/sge.py:89-104 | when the host data exists, every job that is not waiting has a host, and that host has a row |
| Sge.GetUserData | mle_monitor/resource/sge.py:22-87 | the parse and count loops compute UserData |
| Sge.GetHostData | mle_monitor/resource/sge.py:89-104 | the host loop computes HostData |
| Sge.UserCounts | mle_monitor/resource/sge.py:68-86 | the rows are a permutation of the user rows, account for every job, come by decreasing total, and each row's running, waiting and interactive counts add up to its total |
| Sge.HostCounts | mle_monitor/resource/sge.py:89-104 | each host row's running and interactive counts add up to its total; hosts come in natural order |
| Sge.NoneWaiting | mle_monitor/resource/sge.py:92 | after dropping waiting jobs no group has a waiting job |
| Slurm.ParseJob | mle_monitor/resource/slurm.py:49-57 | a `squeue` line parses exactly when it has at least 9 tokens split on Python's whitespace, ASCII and Unicode; the fields are tokens 1 to 7 and the node is token 8 less its last character |
| Slurm.NoBreakSpaceSeparates | mle_monitor/resource/slurm.py:50 | a no-break space separates tokens as `str.split()` does |
| Slurm.HostRowsOf | mle_monitor/resource/slurm.py:88-94 | one row per name, in order, each the counts of that host, and the host names are the names given |
| Slurm.HostRowsTotal | mle_monitor/resource/slurm.py:88-94 | the rows' totals add up to the jobs on the listed hosts |
| Slurm.GetUserData | mle_monitor/resource/slurm.py:22-80 | the parse and count loops compute UserData |
| Slurm.GetHostData | mle_monitor/resource/slurm.py:82-95 | the host loop computes HostData |
| Slurm.UserCounts | mle_monitor/resource/slurm.py:61-79 | the rows are a permutation of the user rows, account for every job, come by decreasing total; running plus waiting is at most the total and login is 0 |
| Slurm.HostCounts | mle_monitor/resource/slurm.py:82-95 | running is at most the total and login is 0; hosts come in natural order |
| Slurm.HostsCover | mle_monitor/resource/slurm.py:129-142 | every job's partition or node has a row |
| MonitorSlurm.UserSlurmData | mle_monitor/resource/monitor_slurm.py:15-70 | a failing `squeue` is swallowed, so the loop raises UnboundLocalError; otherwise the rows and jobs of the listing as in Slurm, or the parse error of the first line that has too few tokens |
| MonitorSlurm.GetUserSlurmData | mle_monitor/resource/monitor_slurm.py:15-70 | the loops compute UserSlurmData |
| MonitorSlurm.GetHostSlurmData | mle_monitor/resource/monitor_slurm.py:73-85 | the loop computes HostSlurmData |
| MonitorSlurm.HostRows | mle_monitor/resource/monitor_slurm.py:73-85 | partitions come once each, in order of their first job, unsorted; the totals add up to all jobs; running at most the total, login 0 |
| Gcp.ParseInstance | mle_monitor/resource/gcp.py:36-39 | a line parses exactly when it has at least 3 tokens split on Python's whitespace, ASCII and Unicode: the machine type is the third, the status the last |
| Gcp.TypeRows | mle_monitor/resource/gcp.py:42-51 | one row per distinct machine type, in order of first appearance, with that type's counts |
| Gcp.Retry | mle_monitor/resource/gcp.py:18-31 | the loop stops at the first attempt that does not raise CalledProcessError, having retried every earlier one |
| Gcp.CountTypes | mle_monitor/resource/gcp.py:34-51 | the parse and count loops compute TypeData |
| Gcp.GetData | mle_monitor/resource/gcp.py:16-53 | after retrying every CalledProcessError: the exception of an attempt that raises anything else, or else the rows of the listing it produced |
| Gcp.ColumnOfTypes | mle_monitor/resource/gcp.py:42-51 | a column over the type rows adds up the types' group counts |
| Gcp.TypeCounts | mle_monitor/resource/gcp.py:42-51 | each machine type has one row in order of first instance; a type's three counts are at most its instances; each column adds up to all instances in that status |
| SummarySeries.Create | mle_monitor/protocol/add.py:123-139 | the first add of the "summary" entry; its contract is carried by `CreateValid` (a known type gives a valid entry with one point per series) and `CreateUnknownType` (an unknown type raises KeyError after storing the time point) |
| SummarySeries.ExtendTotals | mle_monitor/protocol/add.py:143-150 | the cumulative update of a later add; carried by `ExtendTotalsIs` (the exact new series), `ExtendTotalsValid` (the invariant is kept), `ExtendTotalsUnknown` (an unknown type raises after "all" and the types moved) and `ExtendTotalsSteps` (the loop computes it) |
| SummarySeries.ExtendDays | mle_monitor/protocol/add.py:152-164 | the per-day update of a later add; carried by `KnownDayAdd` (a listed day bumps its bucket), `NewDayAdd` (a new day is appended with 0 buckets and the type's bumped) and `ExtendDaysValid` (the daily invariant is kept) |
| SummarySeries.Extend | mle_monitor/protocol/add.py:140-164 | a later add of the whole entry; carried by `ExtendValid` (the exact new time, totals, days and buckets, and validity) and `ExtendUnknownType` (an unknown type leaves "all" out of step) |
| SummarySeries.AddSummary | mle_monitor/protocol/add.py:114-165 | `add_experiment_summary` on the store; carried by `AddExperimentSummary`, the method whose ensures ties the stored entry to it |
| MonitorDb.JobCounts | mle_monitor/monitor/monitor_db.py:91-118 | the job counts of the timing panel; carried by `SyncSearchJobs`, `AsyncSearchDivision` and `OtherTypesJobs`, one per experiment type |
| MonitorDb.TimeExperiment | mle_monitor/monitor/monitor_db.py:85-163 | the timing panel; carried by `TimeEstimate` (which fields it shows, with and without "time_per_job") |
| MonitorDb.LastExperiment | mle_monitor/monitor/monitor_db.py:166-204 | the last-experiment panel; carried by `LastShape`, `BaseShape` (the values of the base fields) and `ExtraKeys` (the type-specific keys) |
| MonitorDb.DbData | mle_monitor/monitor/monitor_db.py:5-42 | the three panels of the monitor; carried by `DbDataShape` |
| Totals.TotalsOf | mle_monitor/protocol/summary.py:46-83 | the counting loop; carried by `TotalsDefined` (when the counts exist), `TotalsPartition` (each id under one status) and `RenderReadsBack` (the rendered dict) |
| Totals.TotalsAsWritten | mle_monitor/protocol/summary.py:46-83 | the totals as the source reads the flags; carried by `FlagCountsAsWritten` and `RetrievedMissedAsWritten` |
| Totals.TotalExperiments | mle_monitor/protocol/summary.py:46-83 | the totals reading the flag add.py writes; carried by `FlagCountsCorrected` |
| ProtocolHelpers.TotalJobs | mle_monitor/protocol/protocol_helpers.py:77-103 | the job count of the protocol table; carried by `JobsByType` |
| SummaryPanels.TimeExperiment | mle_monitor/protocol/summary.py:86-101 | the timing panel of the protocol summary; carried by `SummaryPanels.TimeShape` |
| ProtocolMonitorDb.TimeExperiment | mle_monitor/protocol/monitor_db.py:81-93 | the timing panel of the protocol monitor; carried by `ProtocolMonitorDb.TimeShape` |
| Sge.UserData | mle_monitor/resource/sge.py:22-87 | the user table and job list from `qstat` output; carried by `Sge.GetUserData` (the loops compute it) and `Sge.UserCounts` (the rows' counts) |
| Sge.HostData | mle_monitor/resource/sge.py:89-104 | the per-host rows of the active jobs; carried by `Sge.GetHostData`, `Sge.HostCounts` and `Sge.HostsCover` |
| Sge.QueueData | mle_monitor/resource/sge.py:89-104 | `get_queue_data` is HostData keyed by queue; carried by `Sge.HostCounts` and `Sge.HostsCover` |
| Sge.NodeData | mle_monitor/resource/sge.py:134-149 | `get_node_data` is HostData keyed by node; carried by `Sge.HostCounts` and `Sge.HostsCover` |
| Slurm.UserData | mle_monitor/resource/slurm.py:22-80 | the user table and job list from `squeue` output; carried by `Slurm.GetUserData` and `Slurm.UserCounts` |
| Slurm.HostData | mle_monitor/resource/slurm.py:82-95 | the per-host rows of the jobs; carried by `Slurm.GetHostData`, `Slurm.HostCounts` and `Slurm.HostsCover` |
| Slurm.PartitionData | mle_monitor/resource/slurm.py:82-95 | `get_partition_data` is HostData keyed by partition; carried by `Slurm.HostCounts` and `Slurm.HostsCover` |
| Slurm.NodeData | mle_monitor/resource/slurm.py:129-142 | `get_node_data` is HostData keyed by node; carried by `Slurm.HostCounts` and `Slurm.HostsCover` |
| MonitorSlurm.HostSlurmData | mle_monitor/resource/monitor_slurm.py:73-85 | the per-partition rows; carried by `MonitorSlurm.GetHostSlurmData` and `MonitorSlurm.HostRows` |

## Left out

- Floating point. The memory and CPU ratios of the trackers are Dafny `real`s, so rounding is not modelled. The `get_util_data` functions of the scheduler monitors parse floats and are left out. So is the float division of the asynchronous-search branch of `get_time_experiment` in `mle_monitor/monitor/monitor_db.py` (`Unmodelled` error).
- Rendering. The `rich` tables, spinners and progress bars, pandas display options and every `print` are out. A table is modelled as its headers and rows of cells.
- The clock, `strptime`/`strftime` and `timedelta` arithmetic are parameters. The same goes for MD5 hashing, git lookups and configuration loading (`ExperimentAdd.Environment`, `MonitorDb.TimeExperiment`'s `estimateStop`).
- Subprocesses and the network are inputs:
  - The output of `qstat`, `squeue` and `gcloud` is a string parameter.
  - Each attempt of the cloud sync is an input function.
  - The `qconf -suserl` user list and the command-line construction in `resource/sge.py` are left out, because they only build the command.
- Gcp.Retry: requires that some attempt does not raise CalledProcessError. The source loops forever otherwise, and the one-second sleep between attempts is not modelled.
- Gcp.GetData: requires that some attempt does not raise CalledProcessError, for the same reason.
- Tables.Summary: each cell keeps its value's own type. `pd.DataFrame` stores an integer column that holds a None as float64, so the source prints such cells as "2.0" and "nan", and `int()` of a NaN raises ValueError where the model's `PyOps.IntOf` of a None gives TypeError. This int-to-float coercion is not modelled.
- ProtocolHelpers.Summary: the same: each cell keeps its value's own type, and pandas' int-to-float coercion of a column containing None is not modelled.
- Sorting.SortBy: states an ordered permutation of the input but not stability. Python's sort keeps items with equal keys in their input order, and so does the model's insertion, which puts an item before the first one not smaller; the order of names with equal natural keys, such as "node01" and "node1", is therefore not stated.
- Scheduler.ByTotal: states a permutation with non-increasing totals. It does not state how `np.argsort` orders users with equal totals, because that order depends on numpy's sort algorithm.
- Python's `isdigit`, `int()` and the regular expression `\d` also accept non-ASCII digits. The model accepts only ASCII digits.
- Text.ParseInt: accepts an optional sign and ASCII digits only. Python's `int()` also strips surrounding whitespace and accepts single underscores between digits. So a `time_per_job` such as "1: 30:00", which add.py reads, is a ValueError in Duration.ParseSchedule.
- PyOps.PyStr: `str()` of a list or a dict gives `Unmodelled`, because the model does not render Python's `repr` of containers.
- ExperimentAdd.Items: iterating a dict gives `Unmodelled`. Python iterates its keys in insertion order, and the model's dicts are maps without an order.
- Pickledb's file format, its `sig` handling and YAML/JSON loading are out. The store is an in-memory map with a key order. Its dump is a snapshot held by a file object.
- Field writes into the "summary" entry through `dadd`/`dget` yield `Unmodelled`.
- `set_gcp_credentials` only sets an environment variable, so it is left out.
- The wrappers that pass file names to the cloud sync are left out.
- Left out because each is user interface, interactive input or probing of the local machine:
  - the dashboard (`mle_dashboard.py`, `dashboard/`);
  - the local-resource monitors;
  - `monitor/monitor_sge.py`;
  - zip transfers (`gcs_zip.py`);
  - `protocol/protocol_experiment.py`;
  - the stdin prompts of `mle_protocol.py`;
  - `mle_resource.py` and `resource/detect.py`.
- `protocol_helpers.protocol_table` is the same code as `protocol_table.generate_protocol_table`. `LegacyTable` models both.
- `Tracker.update`'s `save` argument is ignored by the source, which always saves. `FileTracker.Tracker.Update` takes the argument and likewise ignores it.
- Protocol.MLEProtocol.Len: `__len__` carries no contract of its own. Its property, that a successful `add` grows it by one, is part of `Protocol.MLEProtocol.Add`.

## Findings

| source | as written | input that shows it | evidently intended | confidence | as-written member | corrected member |
|---|---|---|---|---|---|---|
| mle_monitor/protocol/summary.py:65 | the totals read the flag "stored_in_gcloud", but add.py writes "stored_in_cloud" (add.py:71). The read raises inside the `try`, so neither the cloud count nor the retrieved count is ever incremented. The same line is at protocol/monitor_db.py:60 and monitor/monitor_db.py:64. Only protocol/protocol_experiment.py:152, which is not part of this model, writes "stored_in_gcloud", so records added through add.py alone never carry it. | a single completed record added by add.py whose `retrieved_results` and `stored_in_cloud` are True: as written the panel shows "retrieved" 0 | the flag add.py writes is read, so each flag count is the number of records whose flag is True (1 here) | not executed | Totals.FlagCountsAsWritten, Totals.RetrievedMissedAsWritten, SummaryPanels.CloudCountsShowZero | Totals.FlagCountsCorrected, Totals.TotalExperiments |
| mle_monitor/mle_tracker.py:28-31 (and utils/tracker.py:30-33) | `moving_window` keeps `xs[:limit]`, the oldest `limit` samples | any history holding 100000 samples: every later `update` appends a sample and the window throws it away, so the history never changes again | keep the most recent samples, `xs[-limit:]`, as the docstring's "last 27 hours" says | not executed | Utilisation.NewestSampleDropped, Utilisation.WindowAsWritten, Utilisation.SampleAligned | Utilisation.OldestSampleDropped, Utilisation.Window, Utilisation.SampleKeptAsIntended |
