/** protocol/tables.py: the summary data frame of the latest experiments and
    the rich table drawn from it (the table `MLEProtocol.summary` returns). */
module Tables {
  import opened Values
  import opened Text
  import opened ProtocolStore
  import opened PyOps
  import opened Frames

  /** One row of the summary frame, one field per column. */
  datatype FrameRow = FrameRow(id: string, date: Value, project: Value, purpose: Value,
                               dir: Value, status: Value, seeds: Value, resource: Value,
                               cpus: Value, gpus: Value, experimentType: Value,
                               jobs: Value, completed: Value)

  /** The twelve fields read for every experiment. */
  const SummaryFields := {"purpose", "project_name", "experiment_dir", "job_status", "start_time",
    "exec_resource", "num_seeds", "num_cpus", "num_gpus", "experiment_type", "num_total_jobs",
    "completed_jobs"}

  /** One experiment's row before formatting, the fields read in the order
      of the appends. */
  function ReadRow(store: Store, key: string): (r: Result<FrameRow>)
    ensures r.Ok? <==> key in store && store[key].Fields? && SummaryFields <= store[key].fields.Keys
    ensures key !in store ==> r == Err(KeyError)
  {
    var purpose :- DGet(store, key, "purpose");
    var project :- DGet(store, key, "project_name");
    var dir :- DGet(store, key, "experiment_dir");
    var status :- DGet(store, key, "job_status");
    var start :- DGet(store, key, "start_time");
    var resource :- DGet(store, key, "exec_resource");
    var seeds :- DGet(store, key, "num_seeds");
    var cpus :- DGet(store, key, "num_cpus");
    var gpus :- DGet(store, key, "num_gpus");
    var experimentType :- DGet(store, key, "experiment_type");
    var jobs :- DGet(store, key, "num_total_jobs");
    var completed :- DGet(store, key, "completed_jobs");
    Ok(FrameRow(key, start, project, purpose, dir, status, seeds, resource, cpus, gpus,
                experimentType, jobs, completed))
  }

  /** `df["Date"].map("{:.5}".format)` on one row. */
  function FormatDate(row: FrameRow): Result<FrameRow>
  {
    var text :- Precision(row.date, 5);
    Ok(row.(date := Str(text)))
  }

  /** `df["Purpose"].map("{:.30}".format)` on one row. */
  function FormatPurpose(row: FrameRow): Result<FrameRow>
  {
    var text :- Precision(row.purpose, 30);
    Ok(row.(purpose := Str(text)))
  }

  /** `protocol_summary(db, ids, tail)`: None without experiments, else the
      frame of the last `tail` ids with dates cut to 5 characters and
      purposes to 30.  With `verbose` the table of the frame is built to be
      printed, so an error building it is raised; the printing is not
      modelled. */
  function Summary(store: Store, ids: seq<string>, tail: Option<int>, verbose: bool, full: bool): (r: Result<Option<seq<FrameRow>>>)
    ensures r == Ok(None) <==> |ids| == 0
    ensures r.Ok? && |ids| > 0 ==> FrameOf(store, Tail(ids, tail)).Ok? && r.value == Some(FrameOf(store, Tail(ids, tail)).value)
  {
    if |ids| == 0 then Ok(None)
    else
      var frame :- FrameOf(store, Tail(ids, tail));
      if verbose then
        var _ :- TableOf(Some(frame), full);
        Ok(Some(frame))
      else Ok(Some(frame))
  }

  /** The frame of the selected keys, before any table is drawn. */
  function FrameOf(store: Store, keys: seq<string>): Result<seq<FrameRow>>
  {
    var rows :- MapAll(k => ReadRow(store, k), keys);
    var dated :- MapAll(FormatDate, rows);
    MapAll(FormatPurpose, dated)
  }

  /** The loop of `protocol_summary`, one experiment per iteration, then
      the two column formats. */
  method ProtocolSummary(store: Store, ids: seq<string>, tail: Option<int>, verbose: bool, full: bool)
    returns (r: Result<Option<seq<FrameRow>>>)
    ensures r == Summary(store, ids, tail, verbose, full)
  {
    if |ids| == 0 {
      return Ok(None);
    }
    var rows := MapEach(k => ReadRow(store, k), Tail(ids, tail));
    if rows.Err? {
      return Err(rows.error);
    }
    var dated := MapEach(FormatDate, rows.value);
    if dated.Err? {
      return Err(dated.error);
    }
    var frame := MapEach(FormatPurpose, dated.value);
    if frame.Err? {
      return Err(frame.error);
    }
    if verbose {
      var table := ProtocolTable(Some(frame.value), full);
      if table.Err? {
        return Err(table.error);
      }
    }
    return Ok(Some(frame.value));
  }

  /** The frame has one row per selected id, in stored order: the id, the
      record's start time and purpose cut to 5 and 30 characters, and every
      other column as the record holds it.  No ids give None. */
  lemma SummaryFrame(store: Store, ids: seq<string>, tail: Option<int>, verbose: bool, full: bool, i: int)
    requires Summary(store, ids, tail, verbose, full).Ok?
    requires 0 <= i < |Tail(ids, tail)|
    ensures Summary(store, ids, tail, verbose, full).value.Some?
    ensures var frame := Summary(store, ids, tail, verbose, full).value.value;
      var key := Tail(ids, tail)[i];
      && |frame| == |Tail(ids, tail)|
      && key in store && store[key].Fields?
      && var rec := store[key].fields;
         && SummaryFields <= rec.Keys && rec["start_time"].Str? && rec["purpose"].Str?
         && frame[i] == FrameRow(key, Str(Take(rec["start_time"].s, 5)), rec["project_name"],
                                 Str(Take(rec["purpose"].s, 30)), rec["experiment_dir"], rec["job_status"],
                                 rec["num_seeds"], rec["exec_resource"], rec["num_cpus"], rec["num_gpus"],
                                 rec["experiment_type"], rec["num_total_jobs"], rec["completed_jobs"])
  {
    var keys := Tail(ids, tail);
    assert FrameOf(store, keys).Ok?;
    var rows := MapAll(k => ReadRow(store, k), keys).value;
    var dated := MapAll(FormatDate, rows).value;
    assert rows[i] == ReadRow(store, keys[i]).value;
    assert dated[i] == FormatDate(rows[i]).value;
  }

  /** The column headers; full mode adds the progress column. */
  const ShortColumns := [":bookmark:", ":id:", ":spiral_calendar:", "Project", "Purpose", "Type",
    "[yellow]:arrow_forward:", "[yellow]:recycle:", "CPU", "GPU"]
  const ProgressColumn := ":hourglass_flowing_sand: Completed Jobs [yellow]:heavy_check_mark:"

  function Columns(full: bool): seq<string>
  {
    ShortColumns + (if full then [ProgressColumn] else [])
  }

  /** The type column: search, config or single for the known types, the
      stored value for any other. */
  function TypeLabel(v: Value): (r: Value)
    ensures v !in {Str("hyperparameter-search"), Str("multiple-configs"), Str("single-config")} ==> r == v
  {
    if v == Str("hyperparameter-search") then Str("search")
    else if v == Str("multiple-configs") then Str("config")
    else if v == Str("single-config") then Str("single")
    else v
  }

  /** The progress bar of full mode: `int()` of the jobs and completed jobs. */
  function ProgressCells(row: FrameRow, full: bool): (r: Result<seq<Cell>>)
    ensures r.Ok? ==> |r.value| == (if full then 1 else 0)
  {
    if full then
      var total :- IntOf(row.jobs);
      var done :- IntOf(row.completed);
      Ok([Progress(total, done)])
    else Ok([])
  }

  /** One table row: project cut to 10 characters, purpose to 15 in full
      mode and 25 otherwise, seeds and cores written with `str`. */
  function TableRow(row: FrameRow, full: bool): (r: Result<seq<Cell>>)
    ensures r.Ok? ==> |r.value| == |Columns(full)|
  {
    var progress :- ProgressCells(row, full);
    var project :- Slice(row.project, 10);
    var purpose :- Slice(row.purpose, if full then 15 else 25);
    var seeds :- PyStr(row.seeds);
    var cpus :- PyStr(row.cpus);
    var gpus :- PyStr(row.gpus);
    Ok([StatusCell(row.status), Shown(Str(row.id)), Shown(row.date), Shown(project), Shown(purpose),
        Shown(TypeLabel(row.experimentType)), Label(ResourceLabel(row.resource)),
        Label(seeds), Label(cpus), Label(gpus)] + progress)
  }

  /** `protocol_table(df, full)`: the headers, then the rows newest first. */
  function TableOf(df: Option<seq<FrameRow>>, full: bool): Result<Table>
  {
    TableFrom(Columns(full), row => TableRow(row, full), df)
  }

  method ProtocolTable(df: Option<seq<FrameRow>>, full: bool) returns (r: Result<Table>)
    ensures r == TableOf(df, full)
  {
    r := DrawTable(Columns(full), row => TableRow(row, full), df);
  }

  /** A table has 10 columns, 11 in full mode; no frame gives the headers
      alone, a frame one row per frame row, newest first, of as many cells
      as there are columns: the status, the id, the date, the project cut to
      10 characters, the purpose cut to 15 (full) or 25 characters, the
      type and resource labels. */
  lemma TableShape(df: Option<seq<FrameRow>>, full: bool, i: int)
    requires TableOf(df, full).Ok?
    ensures |TableOf(df, full).value.columns| == (if full then 11 else 10)
    ensures df.None? ==> TableOf(df, full).value.rows == []
    ensures df.Some? ==> |TableOf(df, full).value.rows| == |df.value|
    ensures df.Some? && 0 <= i < |df.value| ==>
      var row := df.value[|df.value| - 1 - i];
      var cells := TableOf(df, full).value.rows[i];
      && |cells| == |TableOf(df, full).value.columns|
      && Slice(row.project, 10).Ok? && Slice(row.purpose, if full then 15 else 25).Ok?
      && cells[..7] == [StatusCell(row.status), Shown(Str(row.id)), Shown(row.date),
                        Shown(Slice(row.project, 10).value), Shown(Slice(row.purpose, if full then 15 else 25).value),
                        Shown(TypeLabel(row.experimentType)), Label(ResourceLabel(row.resource))]
  {
  }
}
