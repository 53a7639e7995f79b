/** monitor/monitor_db.py: the panels read straight from a pickledb store
    with `dget`, the timing panel working out the number of jobs and the
    estimated duration from the experiment's configuration. */
module MonitorDb {
  import opened Values
  import opened Text
  import opened ProtocolStore
  import opened Totals
  import opened Views
  import opened Duration
  import opened PyOps

  /** Jobs in all, batches, and jobs per batch. */
  datatype Schedule = Schedule(totalJobs: Value, totalBatches: Value, jobsPerBatch: Value)

  /** The branch on the experiment type in `get_time_experiment`.  The
      asynchronous search divides by `max_running_jobs`, giving a float
      (not modelled), TypeError for an operand that is not a number (the
      dividend checked first) or ZeroDivisionError. */
  function JobCounts(meta: Value, spec: Value): Result<Schedule>
  {
    var experimentType :- Lookup(meta, "experiment_type");
    if experimentType == Str("hyperparameter-search") then
      var resources :- Lookup(spec, "search_resources");
      var config :- Lookup(spec, "search_config");
      var schedule :- Lookup(config, "search_schedule");
      if schedule == Str("sync") then
        var batches :- Lookup(resources, "num_search_batches");
        var evals :- Lookup(resources, "num_evals_per_batch");
        var firstTwo :- Mul(batches, evals);
        var seeds :- Lookup(resources, "num_seeds_per_eval");
        var total :- Mul(firstTwo, seeds);
        var perBatch :- Mul(evals, seeds);
        Ok(Schedule(total, batches, perBatch))
      else
        var evals :- Lookup(resources, "num_total_evals");
        var seeds :- Lookup(resources, "num_seeds_per_eval");
        var total :- Mul(evals, seeds);
        var running :- Lookup(resources, "max_running_jobs");
        match (AsNumber(total), AsNumber(running))
        case (Ok(_), Ok(0)) => Err(ZeroDivisionError)
        case (Ok(_), Ok(_)) => Err(Unmodelled)
        case _ => Err(TypeError)
    else if experimentType == Str("multiple-experiments") then
      var configs :- Lookup(spec, "config_fnames");
      var n :- Len(configs);
      var seeds :- Lookup(spec, "num_seeds");
      var total :- Mul(Int(n), seeds);
      Ok(Schedule(total, Int(1), Str("-")))
    else Ok(Schedule(Int(1), Int(1), Str("-")))
  }

  /** An asynchronous search with the given resources. */
  function AsyncSpec(evals: Value, seeds: Value, running: Value): Value
  {
    Dict(map["search_resources" := Dict(map["num_total_evals" := evals,
                                            "num_seeds_per_eval" := seeds,
                                            "max_running_jobs" := running]),
             "search_config" := Dict(map["search_schedule" := Str("async")])])
  }

  /** The division `total_jobs / max_running_jobs` checks its dividend
      first: a str total (a str count of evaluations repeated) raises
      TypeError whatever the divisor; a number over zero raises
      ZeroDivisionError. */
  lemma AsyncSearchDivision(meta: Value, evals: Value, seeds: int, running: Value)
    requires Lookup(meta, "experiment_type") == Ok(Str("hyperparameter-search"))
    ensures evals.Str? ==> JobCounts(meta, AsyncSpec(evals, Int(seeds), running)) == Err(TypeError)
    ensures evals.Int? && running == Int(0) ==>
      JobCounts(meta, AsyncSpec(evals, Int(seeds), running)) == Err(ZeroDivisionError)
  {
    var spec := AsyncSpec(evals, Int(seeds), running);
    assert Lookup(spec, "search_resources").Ok? && Lookup(spec, "search_config").Ok?;
  }

  /** A synchronous search runs `num_search_batches` batches of
      `num_evals_per_batch * num_seeds_per_eval` jobs, whatever else its
      configuration holds. */
  lemma SyncSearchJobs(meta: Value, spec: Value, resources: map<string, Value>)
    requires Lookup(meta, "experiment_type") == Ok(Str("hyperparameter-search"))
    requires Lookup(spec, "search_resources") == Ok(Dict(resources))
    requires Lookup(spec, "search_config").Ok?
    requires Lookup(Lookup(spec, "search_config").value, "search_schedule") == Ok(Str("sync"))
    requires {"num_search_batches", "num_evals_per_batch", "num_seeds_per_eval"} <= resources.Keys
    requires resources["num_search_batches"].Int? && resources["num_evals_per_batch"].Int?
    requires resources["num_seeds_per_eval"].Int?
    ensures var batches, evals, seeds :=
        resources["num_search_batches"].i, resources["num_evals_per_batch"].i, resources["num_seeds_per_eval"].i;
      var r := JobCounts(meta, spec);
      && r.Ok?
      && r.value.totalBatches == Int(batches)
      && r.value.jobsPerBatch == Int(evals * seeds)
      && r.value.totalJobs == Int(batches * (evals * seeds))
  {
    var batches, evals, seeds :=
      resources["num_search_batches"].i, resources["num_evals_per_batch"].i, resources["num_seeds_per_eval"].i;
    assert batches * evals * seeds == batches * (evals * seeds);
  }

  /** Several configurations run `num_seeds` times each, in one batch; any
      other type is one job in one batch. */
  lemma OtherTypesJobs(meta: Value, spec: Value, configs: seq<Value>, seeds: int)
    requires Lookup(meta, "experiment_type").Ok?
    requires Lookup(meta, "experiment_type").value != Str("hyperparameter-search")
    ensures Lookup(meta, "experiment_type").value != Str("multiple-experiments") ==>
      JobCounts(meta, spec) == Ok(Schedule(Int(1), Int(1), Str("-")))
    ensures Lookup(meta, "experiment_type").value == Str("multiple-experiments")
            && Lookup(spec, "config_fnames") == Ok(List(configs)) && Lookup(spec, "num_seeds") == Ok(Int(seeds)) ==>
      JobCounts(meta, spec) == Ok(Schedule(Int(|configs| * seeds), Int(1), Str("-")))
  {
  }

  /** Output keys of the timing panel. */
  function TimeFields(s: Schedule, timePerBatch: Value, start: Value, stop: Value, duration: Value): (r: map<string, Value>)
    ensures r.Keys == EmptyTime.Keys
  {
    map["total_jobs" := s.totalJobs, "total_batches" := s.totalBatches, "jobs_per_batch" := s.jobsPerBatch,
        "time_per_batch" := timePerBatch, "start_time" := start, "stop_time" := stop, "est_duration" := duration]
  }

  /** `get_time_experiment(db, e_id)`.  The stop time, when the record has
      none, is the start time parsed with `strptime` plus the duration as a
      `timedelta`; that calendar arithmetic is the parameter `estimateStop`. */
  function TimeExperiment(store: Store, key: string, estimateStop: (Value, Carried) -> Result<Value>): Result<map<string, Value>>
  {
    var meta :- DGet(store, key, "meta_job_args");
    var spec :- DGet(store, key, "job_spec_args");
    var single :- DGet(store, key, "single_job_args");
    var s :- JobCounts(meta, spec);
    var start :- DGet(store, key, "start_time");
    if !single.Dict? then Err(AttributeError)
    else if "time_per_job" in single.fields then
      var timePerBatch := single.fields["time_per_job"];
      var c :- ParseSchedule(timePerBatch, s.totalBatches);
      var stop :- match DGet(store, key, "stop_time")
        case Ok(v) => Ok(v)
        case Err(_) => estimateStop(start, c);
      Ok(TimeFields(s, timePerBatch, start, stop, Str(DurationText(c, true))))
    else Ok(TimeFields(s, Str("-"), Str("-"), Str("-"), Str("-")))
  }

  /** With a time per job, the panel shows it, and the estimated duration
      is the time per batch carried over the number of batches (see
      ScheduleTotal) and written with two-digit days, hours and minutes
      (read back by DurationTextRoundTrip); without one, the four timing
      fields are "-". */
  lemma TimeEstimate(store: Store, key: string, estimateStop: (Value, Carried) -> Result<Value>)
    requires TimeExperiment(store, key, estimateStop).Ok?
    ensures key in store && store[key].Fields? && "single_job_args" in store[key].fields
    ensures var r := TimeExperiment(store, key, estimateStop).value;
      var single := store[key].fields["single_job_args"];
      && single.Dict?
      && ("time_per_job" !in single.fields ==>
            r["time_per_batch"] == r["start_time"] == r["stop_time"] == r["est_duration"] == Str("-"))
      && ("time_per_job" in single.fields ==>
            && r["time_per_batch"] == single.fields["time_per_job"]
            && ParseSchedule(single.fields["time_per_job"], r["total_batches"]).Ok?
            && r["est_duration"] == Str(DurationText(ParseSchedule(single.fields["time_per_job"], r["total_batches"]).value, true)))
  {
    var meta := DGet(store, key, "meta_job_args").value;
    var spec := DGet(store, key, "job_spec_args").value;
    var single := DGet(store, key, "single_job_args").value;
    var s := JobCounts(meta, spec).value;
    assert TimeExperiment(store, key, estimateStop).value["total_batches"] == s.totalBatches;
  }

  /** `os.path.split(path)[1]`: the text after the last "/". */
  function Basename(path: Value): (r: Result<string>)
    ensures r.Ok? <==> path.Str?
    ensures r.Ok? ==> '/' !in r.value
    ensures r.Ok? && '/' !in path.s ==> r.value == path.s
    ensures r.Ok? ==> && |r.value| <= |path.s| && path.s[|path.s| - |r.value|..] == r.value
                      && (|r.value| < |path.s| ==> path.s[|path.s| - |r.value| - 1] == '/')
  {
    if path.Str? then
      BareName(path.s);
      LastPartSuffix(path.s, '/');
      Ok(LastPart(path.s, '/'))
    else Err(TypeError)
  }

  lemma BareName(s: string)
    ensures '/' !in s ==> LastPart(s, '/') == s
  {
    if '/' !in s {
      SplitOnFree(s, '/');
    }
  }

  /** The file name after a directory is the basename. */
  lemma BasenameAfterSlash(dir: string, name: string)
    requires '/' !in name
    ensures Basename(Str(dir + "/" + name)) == Ok(name)
  {
    LastPartAfter(dir, '/', name);
  }

  /** The six entries every experiment shows, read from `meta_job_args`
      in the source's order. */
  function LastBase(key: string, meta: Value): (r: Result<map<string, Value>>)
    ensures r.Ok? ==> r.value.Keys == BaseLastKeys
  {
    var experimentType :- Lookup(meta, "experiment_type");
    var dir :- Lookup(meta, "experiment_dir");
    var script :- Lookup(meta, "base_train_fname");
    var configPath :- Lookup(meta, "base_train_config");
    var config :- Basename(configPath);
    var report := match Lookup(meta, "report_generation")
      case Ok(v) => v
      case Err(_) => Bool(false);
    Ok(map["e_id" := Str(key), "e_dir" := dir, "e_type" := experimentType,
           "e_script" := script, "e_config" := Str(config), "report_gen" := report])
  }

  /** The six entries are the key, the directory, type and script as
      stored, the basename of the configuration path, and the report flag,
      False when the configuration does not say. */
  lemma BaseShape(key: string, meta: Value)
    requires LastBase(key, meta).Ok?
    ensures var r := LastBase(key, meta).value;
      && meta.Dict?
      && {"experiment_type", "experiment_dir", "base_train_fname", "base_train_config"} <= meta.fields.Keys
      && r["e_id"] == Str(key)
      && r["e_dir"] == meta.fields["experiment_dir"]
      && r["e_type"] == meta.fields["experiment_type"]
      && r["e_script"] == meta.fields["base_train_fname"]
      && Basename(meta.fields["base_train_config"]).Ok?
      && r["e_config"] == Str(Basename(meta.fields["base_train_config"]).value)
      && ("report_generation" !in meta.fields ==> r["report_gen"] == Bool(false))
  {
  }

  /** The entries added for the experiment type: a search's type, metrics
      ("-" when not logged) and parameters, the configuration file names of
      several configurations, nothing for any other type. */
  function LastExtra(experimentType: Value, spec: Value): Result<map<string, Value>>
  {
    if experimentType == Str("hyperparameter-search") then
      var searchConfig :- Lookup(spec, "search_config");
      var searchType :- Lookup(searchConfig, "search_type");
      var metrics := match Lookup(spec, "search_logging")
        case Ok(logging) => (match Lookup(logging, "eval_metrics") case Ok(m) => m case Err(_) => Str("-"))
        case Err(_) => Str("-");
      var params :- Lookup(searchConfig, "search_params");
      Ok(map["search_type" := searchType, "eval_metrics" := metrics, "params_to_search" := params])
    else if experimentType == Str("multiple-experiments") then
      var configs :- Lookup(spec, "config_fnames");
      Ok(map["config_fnames" := configs])
    else Ok(map[])
  }

  /** `get_last_experiment(db, e_id)`: six entries for every experiment,
      and more for a search or several configurations. */
  function LastExperiment(store: Store, key: string): Result<map<string, Value>>
  {
    var meta :- DGet(store, key, "meta_job_args");
    var spec :- DGet(store, key, "job_spec_args");
    var base :- LastBase(key, meta);
    var extra :- LastExtra(base["e_type"], spec);
    Ok(base + extra)
  }

  const BaseLastKeys := {"e_id", "e_dir", "e_type", "e_script", "e_config", "report_gen"}

  /** The entries each type adds, none of them a common one. */
  lemma ExtraKeys(experimentType: Value, spec: Value)
    requires LastExtra(experimentType, spec).Ok?
    ensures var keys := LastExtra(experimentType, spec).value.Keys;
      && keys !! BaseLastKeys
      && (experimentType == Str("hyperparameter-search") ==> keys == {"search_type", "eval_metrics", "params_to_search"})
      && (experimentType == Str("multiple-experiments") ==> keys == {"config_fnames"})
      && (experimentType !in {Str("hyperparameter-search"), Str("multiple-experiments")} ==> keys == {})
  {
  }

  /** The last-experiment panel: the six entries of LastBase, whose values
      BaseShape gives; a search adds exactly its type, metrics and
      parameters, several configurations add their file names, any other
      type adds nothing. */
  lemma LastShape(store: Store, key: string)
    requires LastExperiment(store, key).Ok?
    ensures key in store && store[key].Fields? && "meta_job_args" in store[key].fields
    ensures var r := LastExperiment(store, key).value;
      var meta := store[key].fields["meta_job_args"];
      && meta.Dict? && "experiment_type" in meta.fields
      && LastBase(key, meta).Ok?
      && (forall b :: b in BaseLastKeys ==> r[b] == LastBase(key, meta).value[b])
      && (meta.fields["experiment_type"] == Str("hyperparameter-search") ==>
            r.Keys == BaseLastKeys + {"search_type", "eval_metrics", "params_to_search"})
      && (meta.fields["experiment_type"] == Str("multiple-experiments") ==>
            r.Keys == BaseLastKeys + {"config_fnames"})
      && (meta.fields["experiment_type"] !in {Str("hyperparameter-search"), Str("multiple-experiments")} ==>
            r.Keys == BaseLastKeys)
  {
    var meta := DGet(store, key, "meta_job_args").value;
    var spec := DGet(store, key, "job_spec_args").value;
    BaseShape(key, meta);
    var base := LastBase(key, meta).value;
    ExtraKeys(base["e_type"], spec);
    var extra := LastExtra(base["e_type"], spec).value;
    assert LastExperiment(store, key).value == base + extra;
  }

  const EmptyLast := Placeholder(BaseLastKeys, Str("-"))

  const EmptyTime := Placeholder({"total_jobs", "total_batches", "jobs_per_batch", "time_per_batch",
                                  "start_time", "stop_time", "est_duration"}, Str("-"))

  /** `get_db_data(db, all_e_ids)`. */
  function DbData(store: Store, keys: seq<string>, estimateStop: (Value, Carried) -> Result<Value>): Result<Panels>
  {
    if |keys| > 0 then
      var total :- TotalsAsWritten(store, keys);
      var last :- LastExperiment(store, keys[|keys| - 1]);
      var time :- TimeExperiment(store, keys[|keys| - 1], estimateStop);
      Ok(Panels(total, last, time))
    else Ok(Panels(EmptyTotals, EmptyLast, EmptyTime))
  }

  /** With experiments the totals panel is the count over all of them (so
      TotalsPartition applies), and the placeholders name the keys every
      panel has. */
  lemma DbDataShape(store: Store, keys: seq<string>, estimateStop: (Value, Carried) -> Result<Value>)
    requires DbData(store, keys, estimateStop).Ok?
    ensures TotalsOf(store, keys, GcsFieldAsWritten).Ok?
    ensures var p := DbData(store, keys, estimateStop).value;
      && p.total == Render(TotalsOf(store, keys, GcsFieldAsWritten).value, |keys|)
      && EmptyLast.Keys <= p.last.Keys
      && p.time.Keys == EmptyTime.Keys
  {
    if |keys| > 0 {
      var key := keys[|keys| - 1];
      var total := TotalsAsWritten(store, keys).value;
      var last := LastExperiment(store, key).value;
      var time := TimeExperiment(store, key, estimateStop).value;
      assert DbData(store, keys, estimateStop).value == Panels(total, last, time);
      LastKeys(store, key);
      TimeKeys(store, key, estimateStop);
    } else {
      PlaceholderIsEmptyCount(store, GcsFieldAsWritten);
    }
  }

  lemma TimeKeys(store: Store, key: string, estimateStop: (Value, Carried) -> Result<Value>)
    requires TimeExperiment(store, key, estimateStop).Ok?
    ensures TimeExperiment(store, key, estimateStop).value.Keys == EmptyTime.Keys
  {
  }

  lemma LastKeys(store: Store, key: string)
    requires LastExperiment(store, key).Ok?
    ensures EmptyLast.Keys <= LastExperiment(store, key).value.Keys
  {
    LastShape(store, key);
  }
}
