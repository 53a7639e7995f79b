/** protocol/monitor_db.py: the older copy of the dashboard panels, which
    reads every field with `db.get(e_id, field)` (a `dget` of `str(e_id)`). */
module ProtocolMonitorDb {
  import opened Values
  import opened ProtocolStore
  import opened Totals
  import opened Views

  /** `get_time_experiment`: output key and the record field it shows. */
  const TimeCopies := [Copy("job_status", "job_status"), Copy("total_jobs", "num_total_jobs"),
    Copy("total_batches", "num_job_batches"), Copy("jobs_per_batch", "num_jobs_per_batch"),
    Copy("time_per_batch", "time_per_job"), Copy("start_time", "start_time"),
    Copy("stop_time", "stop_time"), Copy("est_duration", "duration")]

  /** `get_last_experiment`, besides "e_id". */
  const LastCopies := [Copy("e_dir", "experiment_dir"), Copy("e_type", "experiment_type"),
    Copy("e_script", "base_fname"), Copy("e_config", "config_fname"),
    Copy("report_gen", "report_generated")]

  /** The reads `db.get(e_id, field)` of the record under `key`. */
  function Reader(store: Store, key: string): string -> Result<Value>
  {
    f => DGet(store, key, f)
  }

  /** `get_time_experiment(db, e_id)`: eight fields under new names, the
      estimated duration being the record's "duration". */
  function TimeExperiment(store: Store, key: string): (r: Result<map<string, Value>>)
    ensures r.Ok? ==> r.value.Keys == Outs(TimeCopies)
  {
    Project(Reader(store, key), TimeCopies)
  }

  /** The timing panel exists exactly when all eight reads succeed, and
      shows each field under its new name ("duration" as "est_duration");
      without a record it fails with KeyError. */
  lemma TimeShape(store: Store, key: string)
    ensures var r := TimeExperiment(store, key);
      && (r.Ok? <==> (forall i :: 0 <= i < |TimeCopies| ==> DGet(store, key, TimeCopies[i].field).Ok?))
      && (key !in store ==> r == Err(KeyError))
      && (r.Ok? ==> forall i :: 0 <= i < |TimeCopies| ==>
            r.value[TimeCopies[i].out] == store[key].fields[TimeCopies[i].field])
      && (r.Ok? ==> "est_duration" in r.value && r.value["est_duration"] == store[key].fields["duration"])
  {
    assert DistinctOuts(TimeCopies);
    assert TimeCopies[7] == Copy("est_duration", "duration");
    ProjectRecord(store, key, TimeCopies);
  }

  /** Reading fields of one record into a dict, for any list of copies. */
  lemma ProjectRecord(store: Store, key: string, copies: seq<Copy>)
    requires |copies| > 0
    ensures var r := Project(Reader(store, key), copies);
      && (r.Ok? <==> (forall i :: 0 <= i < |copies| ==> DGet(store, key, copies[i].field).Ok?))
      && (key !in store ==> r == Err(KeyError))
      && (r.Ok? && DistinctOuts(copies) ==> forall i :: 0 <= i < |copies| ==>
            r.value[copies[i].out] == store[key].fields[copies[i].field])
  {
    var read := Reader(store, key);
    var r := Project(read, copies);
    forall i | 0 <= i < |copies|
      ensures read(copies[i].field) == DGet(store, key, copies[i].field)
    {
    }
    if r.Ok? {
      if DistinctOuts(copies) {
        ProjectValues(read, copies);
      }
    } else {
      ProjectError(read, copies);
    }
  }

  /** `get_last_experiment(db, e_id)`: exactly "e_id" (`str(e_id)`) and
      five fields under new names. */
  function LastExperiment(store: Store, key: string): (r: Result<map<string, Value>>)
    ensures r.Ok? ==> r.value.Keys == {"e_id", "e_dir", "e_type", "e_script", "e_config", "report_gen"}
  {
    LastOuts();
    var fields :- Project(Reader(store, key), LastCopies);
    Ok(fields["e_id" := Str(key)])
  }

  lemma LastOuts()
    ensures Outs(LastCopies) == {"e_dir", "e_type", "e_script", "e_config", "report_gen"}
  {
    assert LastCopies[0].out == "e_dir" && LastCopies[1].out == "e_type" && LastCopies[2].out == "e_script";
    assert LastCopies[3].out == "e_config" && LastCopies[4].out == "report_gen";
  }

  /** The last-experiment panel exists exactly when all five reads succeed;
      it shows the id as "e_id" and each field under its new name; without
      a record it fails with KeyError. */
  lemma LastShape(store: Store, key: string)
    ensures var r := LastExperiment(store, key);
      && (r.Ok? <==> (forall i :: 0 <= i < |LastCopies| ==> DGet(store, key, LastCopies[i].field).Ok?))
      && (key !in store ==> r == Err(KeyError))
      && (r.Ok? ==> r.value["e_id"] == Str(key))
      && (r.Ok? ==> forall i :: 0 <= i < |LastCopies| ==>
            r.value[LastCopies[i].out] == store[key].fields[LastCopies[i].field])
  {
    assert DistinctOuts(LastCopies);
    LastOuts();
    ProjectRecord(store, key, LastCopies);
    var fields := Project(Reader(store, key), LastCopies);
    if fields.Ok? {
      assert LastExperiment(store, key) == Ok(fields.value["e_id" := Str(key)]);
      NoIdOut();
    }
  }

  /** No copied field is renamed to "e_id", so the id does not overwrite one. */
  lemma NoIdOut()
    ensures forall i :: 0 <= i < |LastCopies| ==> LastCopies[i].out != "e_id"
  {
    LastOuts();
    forall i | 0 <= i < |LastCopies|
      ensures LastCopies[i].out != "e_id"
    {
      assert LastCopies[i].out in Outs(LastCopies);
    }
  }

  const EmptyLast := Placeholder({"e_id", "e_dir", "e_type", "e_script", "e_config", "report_gen"}, Str("-"))

  /** With no experiments every timing field is "-"; there is no "job_status". */
  const EmptyTime := Placeholder(Outs(TimeCopies) - {"job_status"}, Str("-"))

  /** `get_monitor_db_data(db)`. */
  function MonitorDbData(store: Store, keys: seq<string>): Result<Panels>
  {
    if |keys| > 0 then
      var total :- TotalsAsWritten(store, keys);
      var last :- LastExperiment(store, keys[|keys| - 1]);
      var time :- TimeExperiment(store, keys[|keys| - 1]);
      Ok(Panels(total, last, time))
    else Ok(Panels(EmptyTotals, EmptyLast, EmptyTime))
  }

  /** With experiments the totals panel is the count over all of them (so
      TotalsPartition applies); without, it is the count over none. */
  lemma MonitorTotal(store: Store, keys: seq<string>)
    requires MonitorDbData(store, keys).Ok?
    ensures TotalsOf(store, keys, GcsFieldAsWritten).Ok?
    ensures MonitorDbData(store, keys).value.total == Render(TotalsOf(store, keys, GcsFieldAsWritten).value, |keys|)
  {
    if |keys| > 0 {
      var key := keys[|keys| - 1];
      assert TotalsOf(store, keys, GcsFieldAsWritten).Ok?;
      assert LastExperiment(store, key).Ok? && TimeExperiment(store, key).Ok?;
    } else {
      PlaceholderIsEmptyCount(store, GcsFieldAsWritten);
    }
  }

  /** The placeholders name the panel keys, except that the empty timing
      panel has no "job_status". */
  lemma PlaceholdersMatchPanels(store: Store, keys: seq<string>)
    requires |keys| > 0 && MonitorDbData(store, keys).Ok?
    ensures var p := MonitorDbData(store, keys).value;
      && p.last.Keys == EmptyLast.Keys
      && p.time.Keys == EmptyTime.Keys + {"job_status"}
      && "job_status" !in EmptyTime
  {
    var key := keys[|keys| - 1];
    assert TotalsOf(store, keys, GcsFieldAsWritten).Ok?;
    assert LastExperiment(store, key).Ok? && TimeExperiment(store, key).Ok?;
    assert "job_status" in Outs(TimeCopies) by {
      assert TimeCopies[0].out == "job_status";
    }
  }
}
