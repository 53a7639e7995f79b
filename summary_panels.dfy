/** protocol/summary.py: the three dashboard panels of a protocol.  The ids
    arrive here as the keys `str(e_id)` that `MLEProtocol.get` reads. */
module SummaryPanels {
  import opened Values
  import opened Text
  import opened ProtocolStore
  import opened Totals
  import opened Views

  /** `get_time_experiment`: output key and the record field it shows. */
  const TimeCopies := [Copy("num_seeds", "num_seeds"), Copy("total_jobs", "num_total_jobs"),
    Copy("completed_jobs", "completed_jobs"), Copy("total_batches", "num_job_batches"),
    Copy("jobs_per_batch", "num_jobs_per_batch"), Copy("time_per_batch", "time_per_job"),
    Copy("start_time", "start_time"), Copy("stop_time", "stop_time"),
    Copy("duration", "duration"), Copy("job_status", "job_status")]

  /** `get_last_experiment`, besides "e_id". */
  const LastCopies := [Copy("job_status", "job_status"), Copy("e_dir", "experiment_dir"),
    Copy("e_type", "experiment_type"), Copy("e_script", "base_fname"),
    Copy("e_config", "config_fname"), Copy("report_gen", "report_generated"),
    Copy("resource", "exec_resource")]

  /** `db.get(e_id)[field]`: a missing record is pickledb's False, which
      cannot be indexed; the summary entry holds none of the fields read here. */
  function EntryField(store: Store, key: string, field: string): Result<Value>
  {
    match Get(store, key)
    case None => Err(TypeError)
    case Some(Fields(rec)) => Field(rec, field)
    case Some(SummaryEntry(_)) => Err(KeyError)
  }

  /** The reads of the record under `key`. */
  function Reader(store: Store, key: string): string -> Result<Value>
  {
    f => EntryField(store, key, f)
  }

  /** `get_time_experiment(db, e_id)`: ten fields of the record under new names. */
  function TimeExperiment(store: Store, key: string): (r: Result<map<string, Value>>)
    ensures r.Ok? ==> r.value.Keys == Outs(TimeCopies)
  {
    Project(Reader(store, key), TimeCopies)
  }

  /** The timing panel exists exactly when the record has all ten fields,
      and shows each of them under its new name; without a record it fails
      with TypeError. */
  lemma TimeShape(store: Store, key: string)
    ensures var r := TimeExperiment(store, key);
      && (r.Ok? <==> (key in store && store[key].Fields?
                      && forall i :: 0 <= i < |TimeCopies| ==> TimeCopies[i].field in store[key].fields))
      && (key !in store ==> r == Err(TypeError))
      && (r.Ok? ==> forall i :: 0 <= i < |TimeCopies| ==>
            r.value[TimeCopies[i].out] == store[key].fields[TimeCopies[i].field])
  {
    assert DistinctOuts(TimeCopies);
    ProjectRecord(store, key, TimeCopies);
  }

  /** A read of the record: its field, when the record has it. */
  lemma ReaderField(store: Store, key: string, f: string)
    ensures Reader(store, key)(f).Ok? <==> key in store && store[key].Fields? && f in store[key].fields
    ensures Reader(store, key)(f).Ok? ==> Reader(store, key)(f).value == store[key].fields[f]
    ensures key !in store ==> Reader(store, key)(f) == Err(TypeError)
  {
  }

  /** Reading fields of one record into a dict, for any list of copies. */
  lemma ProjectRecord(store: Store, key: string, copies: seq<Copy>)
    requires |copies| > 0
    ensures var r := Project(Reader(store, key), copies);
      && (r.Ok? <==> (key in store && store[key].Fields?
                      && forall i :: 0 <= i < |copies| ==> copies[i].field in store[key].fields))
      && (key !in store ==> r == Err(TypeError))
      && (r.Ok? && DistinctOuts(copies) ==> forall i :: 0 <= i < |copies| ==>
            r.value[copies[i].out] == store[key].fields[copies[i].field])
  {
    var read := Reader(store, key);
    var r := Project(read, copies);
    forall i | 0 <= i < |copies|
      ensures read(copies[i].field).Ok? <==> key in store && store[key].Fields? && copies[i].field in store[key].fields
      ensures read(copies[i].field).Ok? ==> read(copies[i].field).value == store[key].fields[copies[i].field]
      ensures key !in store ==> read(copies[i].field) == Err(TypeError)
    {
      ReaderField(store, key, copies[i].field);
    }
    if r.Ok? {
      assert read(copies[0].field).Ok?;
      if DistinctOuts(copies) {
        ProjectValues(read, copies);
      }
    } else {
      ProjectError(read, copies);
    }
  }

  /** `get_last_experiment(db, e_id)`: "e_id" is `str(e_id)`, seven fields
      of the record under new names. */
  function LastExperiment(store: Store, key: string): (r: Result<map<string, Value>>)
    ensures r.Ok? ==> r.value.Keys == Outs(LastCopies) + {"e_id"}
  {
    var fields :- Project(Reader(store, key), LastCopies);
    Ok(fields["e_id" := Str(key)])
  }

  /** The last-experiment panel exists exactly when the record has all seven
      fields; it shows the id as "e_id" and each field under its new name;
      without a record it fails with TypeError. */
  lemma LastShape(store: Store, key: string)
    ensures var r := LastExperiment(store, key);
      && (r.Ok? <==> (key in store && store[key].Fields?
                      && forall i :: 0 <= i < |LastCopies| ==> LastCopies[i].field in store[key].fields))
      && (key !in store ==> r == Err(TypeError))
      && (r.Ok? ==> r.value["e_id"] == Str(key))
      && (r.Ok? ==> forall i :: 0 <= i < |LastCopies| ==>
            r.value[LastCopies[i].out] == store[key].fields[LastCopies[i].field])
  {
    assert DistinctOuts(LastCopies);
    assert "e_id" !in Outs(LastCopies);
    ProjectRecord(store, key, LastCopies);
  }

  /** What the last-experiment panel shows with no experiments. */
  const EmptyLast := Placeholder(Outs(LastCopies) + {"e_id"}, Str("-"))

  /** What the timing panel shows with no experiments: one job in one batch,
      none completed, one seed, "-" elsewhere. */
  function EmptyTimeValue(k: string): Value
  {
    if k == "total_jobs" || k == "total_batches" || k == "num_seeds" then Int(1)
    else if k == "completed_jobs" then Int(0)
    else Str("-")
  }

  const EmptyTime := map k | k in Outs(TimeCopies) :: EmptyTimeValue(k)

  /** `get_monitor_db_data(db)`: the panels of the last id, or placeholders. */
  function MonitorDbData(store: Store, keys: seq<string>): Result<Panels>
  {
    if |keys| > 0 then
      var total :- TotalsAsWritten(store, keys);
      var last :- LastExperiment(store, keys[|keys| - 1]);
      var time :- TimeExperiment(store, keys[|keys| - 1]);
      Ok(Panels(total, last, time))
    else Ok(Panels(EmptyTotals, EmptyLast, EmptyTime))
  }

  /** The placeholders have the keys the panels have, so the dashboard
      reads the same names before and after the first experiment. */
  lemma PlaceholdersMatchPanels(store: Store, keys: seq<string>)
    requires MonitorDbData(store, keys).Ok?
    ensures var p := MonitorDbData(store, keys).value;
      && p.total.Keys == TotalsKeys
      && p.last.Keys == EmptyLast.Keys
      && p.time.Keys == EmptyTime.Keys
  {
    var p := MonitorDbData(store, keys).value;
    assert EmptyLast.Keys == Outs(LastCopies) + {"e_id"};
    assert EmptyTime.Keys == Outs(TimeCopies);
    if |keys| > 0 {
      var key := keys[|keys| - 1];
      TotalsDefined(store, keys, GcsFieldAsWritten);
      RenderReadsBack(TotalsOf(store, keys, GcsFieldAsWritten).value, |keys|);
      assert LastExperiment(store, key).Ok? && TimeExperiment(store, key).Ok?;
      assert p == Panels(TotalsAsWritten(store, keys).value, LastExperiment(store, key).value, TimeExperiment(store, key).value);
    } else {
      RenderReadsBack(Zero, 0);
      PlaceholderIsEmptyCount(store, GcsFieldAsWritten);
    }
  }

  /** With experiments, the totals panel is the count over all of them. */
  lemma MonitorTotal(store: Store, keys: seq<string>)
    requires |keys| > 0 && MonitorDbData(store, keys).Ok?
    ensures TotalsOf(store, keys, GcsFieldAsWritten).Ok?
    ensures MonitorDbData(store, keys).value.total == Render(TotalsOf(store, keys, GcsFieldAsWritten).value, |keys|)
  {
    var key := keys[|keys| - 1];
    assert TotalsOf(store, keys, GcsFieldAsWritten).Ok?;
    assert LastExperiment(store, key).Ok? && TimeExperiment(store, key).Ok?;
  }

  /** The panel reads the flag "stored_in_gcloud"; for records without it,
      as add.py writes them, the cloud and retrieved counts show "0". */
  lemma CloudCountsShowZero(store: Store, keys: seq<string>)
    requires |keys| > 0 && MonitorDbData(store, keys).Ok?
    requires forall i :: 0 <= i < |keys| ==> DGet(store, keys[i], GcsFieldAsWritten).Err?
    ensures MonitorDbData(store, keys).value.total["gcs_stored"] == "0"
    ensures MonitorDbData(store, keys).value.total["retrieved"] == "0"
  {
    MonitorTotal(store, keys);
    FlagCountsAsWritten(store, keys);
    PlaceholderIsEmptyCount(store, GcsFieldAsWritten);
    assert Render(Zero, 0)["gcs_stored"] == "0" && Render(Zero, 0)["retrieved"] == "0";
    RenderReadsBack(TotalsOf(store, keys, GcsFieldAsWritten).value, |keys|);
  }

  /** The totals panel shows counts (each read back by RenderReadsBack) in
      which the statuses, and separately the resources, add up to the
      number of experiments; with no experiments every count is zero. */
  lemma MonitorCounts(store: Store, keys: seq<string>)
    requires MonitorDbData(store, keys).Ok?
    ensures exists c :: && MonitorDbData(store, keys).value.total == Render(c, |keys|)
                        && c.run + c.done + c.aborted == |keys|
                        && c.sge + c.slurm + c.gcp + c.local == |keys|
                        && 0 <= c.run && 0 <= c.done && 0 <= c.aborted
                        && 0 <= c.sge && 0 <= c.slurm && 0 <= c.gcp && 0 <= c.local
  {
    if |keys| > 0 {
      MonitorTotal(store, keys);
      TotalsPartition(store, keys, GcsFieldAsWritten);
      var c := TotalsOf(store, keys, GcsFieldAsWritten).value;
      assert MonitorDbData(store, keys).value.total == Render(c, |keys|);
    } else {
      PlaceholderIsEmptyCount(store, GcsFieldAsWritten);
      assert MonitorDbData(store, keys).value.total == Render(Zero, 0);
    }
  }
}
