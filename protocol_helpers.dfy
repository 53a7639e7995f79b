/** protocol/protocol_helpers.py, `protocol_summary`: the older summary
    frame, whose keys carry a prefix ("e-id-7" shows as "7") and whose job
    counts are worked out from the experiment's configuration.  The
    prefixed `load_protocol_db` of the same file is
    ProtocolLoad.LoadPrefixedDb; its `protocol_table` is LegacyTable. */
module ProtocolHelpers {
  import opened Values
  import opened Text
  import opened ProtocolStore
  import opened PyOps
  import opened Frames
  import opened LegacyTable

  /** The type column: search, multi or other. */
  function TypeLabel(experimentType: Value): (r: string)
    ensures r in {"search", "multi", "other"}
    ensures r == "search" <==> experimentType == Str("hyperparameter-search")
    ensures r == "multi" <==> experimentType == Str("multiple-experiments")
  {
    if experimentType == Str("hyperparameter-search") then "search"
    else if experimentType == Str("multiple-experiments") then "multi"
    else "other"
  }

  /** `batches * evals * seeds` of the search resources. */
  function BatchJobs(resources: Value): Result<Value>
  {
    var batches :- Lookup(resources, "num_search_batches");
    var evals :- Lookup(resources, "num_evals_per_batch");
    var firstTwo :- Mul(batches, evals);
    var seeds :- Lookup(resources, "num_seeds_per_eval");
    Mul(firstTwo, seeds)
  }

  /** The body of the `try`: the sync schedule's job count, or
      `total_evals * seeds` for any other schedule. */
  function ScheduledJobs(spec: Value, resources: Value): Result<Value>
  {
    var config :- Lookup(spec, "search_config");
    var schedule :- Lookup(config, "search_schedule");
    if schedule == Str("sync") then BatchJobs(resources)
    else
      var evals :- Lookup(resources, "num_total_evals");
      var seeds :- Lookup(resources, "num_seeds_per_eval");
      Mul(evals, seeds)
  }

  /** Total jobs by experiment type; any exception in reading the schedule
      falls back to the sync count, whose own exception is raised. */
  function TotalJobs(experimentType: Value, spec: Value): Result<Value>
  {
    if experimentType == Str("hyperparameter-search") then
      var resources :- Lookup(spec, "search_resources");
      match ScheduledJobs(spec, resources)
      case Ok(jobs) => Ok(jobs)
      case Err(_) => BatchJobs(resources)
    else if experimentType == Str("multiple-experiments") then
      var configs :- Lookup(spec, "config_fnames");
      var n :- Len(configs);
      var seeds :- Lookup(spec, "num_seeds");
      Mul(Int(n), seeds)
    else Ok(Int(1))
  }

  /** `v` when the read succeeds, `fallback` on any exception. */
  function OrElse(r: Result<Value>, fallback: Value): (v: Value)
    ensures r.Ok? ==> v == r.value
    ensures r.Err? ==> v == fallback
  {
    if r.Ok? then r.value else fallback
  }

  /** The six plain reads of one iteration, in the order of the appends. */
  datatype Plain = Plain(purpose: Value, project: Value, path: Value, status: Value, start: Value, resource: Value)

  function ReadPlain(store: Store, key: string): (r: Result<Plain>)
    ensures r.Ok? <==> (key in store && store[key].Fields?
      && {"purpose", "project_name", "exp_retrieval_path", "job_status", "start_time", "exec_resource"} <= store[key].fields.Keys)
  {
    var purpose :- DGet(store, key, "purpose");
    var project :- DGet(store, key, "project_name");
    var path :- DGet(store, key, "exp_retrieval_path");
    var status :- DGet(store, key, "job_status");
    var start :- DGet(store, key, "start_time");
    var resource :- DGet(store, key, "exec_resource");
    Ok(Plain(purpose, project, path, status, start, resource))
  }

  /** One iteration of the loop: the row of `key`.  The ID column is
      rewritten to the text after the last "-" once the loop is done; that
      rewrite cannot raise on string keys, so it is applied here. */
  function ReadRow(store: Store, key: string): Result<LegacyRow>
  {
    var p :- ReadPlain(store, key);
    var seeds := OrElse(DGet(store, key, "num_seeds"), Str("-"));
    var jobArgs :- DGet(store, key, "single_job_args");
    var cpus :- Lookup(jobArgs, "num_logical_cores");
    var gpus := OrElse(Lookup(jobArgs, "num_gpus"), Int(0));
    var meta :- DGet(store, key, "meta_job_args");
    var experimentType :- Lookup(meta, "experiment_type");
    var spec :- DGet(store, key, "job_spec_args");
    var jobs :- TotalJobs(experimentType, spec);
    Ok(LegacyRow(Str(LastPart(key, '-')), p.start, p.project, p.purpose, p.path, p.status, seeds, p.resource,
                 cpus, gpus, Str(TypeLabel(experimentType)), jobs))
  }

  /** `df["Date"].map("{:.5}".format)` on one row. */
  function FormatDate(row: LegacyRow): Result<LegacyRow>
  {
    var text :- Precision(row.date, 5);
    Ok(row.(date := Str(text)))
  }

  /** `df["Purpose"].map("{:.30}".format)` on one row. */
  function FormatPurpose(row: LegacyRow): Result<LegacyRow>
  {
    var text :- Precision(row.purpose, 30);
    Ok(row.(purpose := Str(text)))
  }

  /** The frame of the selected keys. */
  function FrameOf(store: Store, keys: seq<string>): Result<seq<LegacyRow>>
  {
    var rows :- MapAll(k => ReadRow(store, k), keys);
    var dated :- MapAll(FormatDate, rows);
    MapAll(FormatPurpose, dated)
  }

  /** `protocol_summary(db, ids, tail, verbose)`: None without ids, else
      the frame of `ids[-tail:]`; with `verbose` the short table of the
      frame is built to be printed, so its error is raised.  The printing
      itself is not modelled. */
  function Summary(store: Store, ids: seq<string>, tail: Option<int>, verbose: bool): (r: Result<Option<seq<LegacyRow>>>)
    ensures r == Ok(None) <==> |ids| == 0
    ensures r.Ok? && |ids| > 0 ==> FrameOf(store, Tail(ids, tail)).Ok? && r.value == Some(FrameOf(store, Tail(ids, tail)).value)
  {
    if |ids| == 0 then Ok(None)
    else
      var frame :- FrameOf(store, Tail(ids, tail));
      if verbose then
        var _ :- GenerateTable(Some(frame), false);
        Ok(Some(frame))
      else Ok(Some(frame))
  }

  /** The loop of `protocol_summary` and the column rewrites after it. */
  method ProtocolSummary(store: Store, ids: seq<string>, tail: Option<int>, verbose: bool)
    returns (r: Result<Option<seq<LegacyRow>>>)
    ensures r == Summary(store, ids, tail, verbose)
  {
    if |ids| == 0 {
      return Ok(None);
    }
    var rows := MapEach(k => ReadRow(store, k), Tail(ids, tail));
    if rows.Err? {
      return Err(rows.error);
    }
    var dated := MapEach(FormatDate, rows.value);
    if dated.Err? {
      return Err(dated.error);
    }
    var frame := MapEach(FormatPurpose, dated.value);
    if frame.Err? {
      return Err(frame.error);
    }
    if verbose {
      var table := GenerateProtocolTable(Some(frame.value), false);
      if table.Err? {
        return Err(table.error);
      }
    }
    return Ok(Some(frame.value));
  }

  /** The row read for one key: its ID is the text after the key's last
      "-", a missing `num_seeds` shows "-" and a missing `num_gpus` 0, the
      type is labelled and the jobs counted by type. */
  lemma RowOfKey(store: Store, key: string)
    requires ReadRow(store, key).Ok?
    ensures key in store && store[key].Fields?
    ensures var rec := store[key].fields;
      var row := ReadRow(store, key).value;
      && {"purpose", "start_time", "single_job_args", "meta_job_args", "job_spec_args"} <= rec.Keys
      && row.date == rec["start_time"] && row.purpose == rec["purpose"]
      && Lookup(rec["meta_job_args"], "experiment_type").Ok?
      && var experimentType := Lookup(rec["meta_job_args"], "experiment_type").value;
         && TotalJobs(experimentType, rec["job_spec_args"]).Ok?
         && row.id == Str(LastPart(key, '-'))
         && row.seeds == (if "num_seeds" in rec then rec["num_seeds"] else Str("-"))
         && row.gpus == OrElse(Lookup(rec["single_job_args"], "num_gpus"), Int(0))
         && row.experimentType == Str(TypeLabel(experimentType))
         && row.jobs == TotalJobs(experimentType, rec["job_spec_args"]).value
  {
    assert ReadPlain(store, key).Ok?;
  }

  /** Row `i` of the frame is the row of the `i`-th selected key (see
      RowOfKey) with its date cut to 5 characters and its purpose to 30. */
  lemma SummaryRow(store: Store, ids: seq<string>, tail: Option<int>, verbose: bool, i: int)
    requires Summary(store, ids, tail, verbose).Ok?
    requires 0 <= i < |Tail(ids, tail)|
    ensures Summary(store, ids, tail, verbose).value.Some?
    ensures var frame := Summary(store, ids, tail, verbose).value.value;
      var key := Tail(ids, tail)[i];
      && |frame| == |Tail(ids, tail)|
      && ReadRow(store, key).Ok?
      && var row := ReadRow(store, key).value;
         && row.date.Str? && row.purpose.Str?
         && frame[i] == row.(date := Str(Take(row.date.s, 5)), purpose := Str(Take(row.purpose.s, 30)))
  {
    var keys := Tail(ids, tail);
    FrameAt(store, keys, i);
    Formatted(ReadRow(store, keys[i]).value);
  }

  /** The i-th row of a frame is the i-th key's row with both columns
      rewritten. */
  lemma FrameAt(store: Store, keys: seq<string>, i: int)
    requires FrameOf(store, keys).Ok?
    requires 0 <= i < |keys|
    ensures |FrameOf(store, keys).value| == |keys|
    ensures ReadRow(store, keys[i]).Ok? && FormatDate(ReadRow(store, keys[i]).value).Ok?
    ensures FormatPurpose(FormatDate(ReadRow(store, keys[i]).value).value).Ok?
    ensures FrameOf(store, keys).value[i] == FormatPurpose(FormatDate(ReadRow(store, keys[i]).value).value).value
  {
    var rows := MapAll(k => ReadRow(store, k), keys);
    var dated := MapAll(FormatDate, rows.value);
    assert rows.value[i] == ReadRow(store, keys[i]).value;
    assert dated.value[i] == FormatDate(rows.value[i]).value;
  }

  /** Both rewrites succeed only on text, which they cut. */
  lemma Formatted(row: LegacyRow)
    requires FormatDate(row).Ok? && FormatPurpose(FormatDate(row).value).Ok?
    ensures row.date.Str? && row.purpose.Str?
    ensures FormatPurpose(FormatDate(row).value).value
         == row.(date := Str(Take(row.date.s, 5)), purpose := Str(Take(row.purpose.s, 30)))
  {
  }

  /** A search runs `batches * evals * seeds` jobs when its schedule is
      sync or cannot be read, and `total_evals * seeds` for any other
      schedule that can; several configurations run `num_seeds` times each;
      any other type is one job. */
  lemma JobsByType(experimentType: Value, spec: Value, resources: map<string, Value>, configs: seq<Value>, seeds: int)
    ensures experimentType == Str("hyperparameter-search") && Lookup(spec, "search_resources") == Ok(Dict(resources))
            && {"num_search_batches", "num_evals_per_batch", "num_seeds_per_eval"} <= resources.Keys
            && resources["num_search_batches"].Int? && resources["num_evals_per_batch"].Int?
            && resources["num_seeds_per_eval"].Int?
            && (|| Lookup(spec, "search_config").Err?
                || Lookup(Lookup(spec, "search_config").value, "search_schedule").Err?
                || Lookup(Lookup(spec, "search_config").value, "search_schedule") == Ok(Str("sync"))) ==>
      TotalJobs(experimentType, spec) == Ok(Int(resources["num_search_batches"].i * resources["num_evals_per_batch"].i
                                                * resources["num_seeds_per_eval"].i))
    ensures experimentType == Str("hyperparameter-search") && Lookup(spec, "search_resources") == Ok(Dict(resources))
            && {"num_total_evals", "num_seeds_per_eval"} <= resources.Keys
            && resources["num_total_evals"].Int? && resources["num_seeds_per_eval"].Int?
            && Lookup(spec, "search_config").Ok? && Lookup(Lookup(spec, "search_config").value, "search_schedule").Ok?
            && Lookup(Lookup(spec, "search_config").value, "search_schedule").value != Str("sync") ==>
      TotalJobs(experimentType, spec) == Ok(Int(resources["num_total_evals"].i * resources["num_seeds_per_eval"].i))
    ensures experimentType == Str("multiple-experiments") && Lookup(spec, "config_fnames") == Ok(List(configs))
            && Lookup(spec, "num_seeds") == Ok(Int(seeds)) ==>
      TotalJobs(experimentType, spec) == Ok(Int(|configs| * seeds))
    ensures experimentType !in {Str("hyperparameter-search"), Str("multiple-experiments")} ==>
      TotalJobs(experimentType, spec) == Ok(Int(1))
  {
  }
}
