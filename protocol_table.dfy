/** protocol/protocol_table.py: the older summary table, drawn from the
    frame of protocol/protocol_helpers.py (whose own `protocol_table` is
    the same function). */
module LegacyTable {
  import opened Values
  import opened PyOps
  import opened Frames

  /** One row of the older summary frame, one field per column. */
  datatype LegacyRow = LegacyRow(id: Value, date: Value, project: Value, purpose: Value, dir: Value,
                                 status: Value, seeds: Value, resource: Value, cpus: Value, gpus: Value,
                                 experimentType: Value, jobs: Value)

  const ShortColumns := ["[green]:heavy_check_mark:[/green]/[red]:heavy_multiplication_x:", "E-ID", "Date",
    "Project", "Purpose", "Type", "[yellow]:arrow_forward:"]
  const ResourceColumns := ["#Jobs", "#CPU", "#GPU", "[yellow]:recycle:"]

  /** The headers; full mode adds the four resource columns. */
  function Columns(full: bool): seq<string>
  {
    ShortColumns + (if full then ResourceColumns else [])
  }

  /** Full mode: `str` of the jobs, cores, GPUs and seeds. */
  function ResourceCells(row: LegacyRow, full: bool): (r: Result<seq<Cell>>)
    ensures r.Ok? ==> |r.value| == (if full then 4 else 0)
    ensures !full ==> r == Ok([])
    ensures full && row.jobs.Int? && row.cpus.Int? && row.gpus.Int? && row.seeds.Int? ==> r.Ok?
  {
    if full then
      var jobs :- PyStr(row.jobs);
      var cpus :- PyStr(row.cpus);
      var gpus :- PyStr(row.gpus);
      var seeds :- PyStr(row.seeds);
      Ok([Label(jobs), Label(cpus), Label(gpus), Label(seeds)])
    else Ok([])
  }

  /** One table row: project cut to 20 characters and purpose to 25 in
      both modes, the type shown as stored. */
  function TableRow(row: LegacyRow, full: bool): (r: Result<seq<Cell>>)
    ensures r.Ok? ==> |r.value| == |Columns(full)|
    ensures r.Ok? ==> (Slice(row.project, 20).Ok? && Slice(row.purpose, 25).Ok?
      && r.value[..7] == [StatusCell(row.status), Shown(row.id), Shown(row.date), Shown(Slice(row.project, 20).value),
                          Shown(Slice(row.purpose, 25).value), Shown(row.experimentType), Label(ResourceLabel(row.resource))])
  {
    var project :- Slice(row.project, 20);
    var purpose :- Slice(row.purpose, 25);
    var extra :- ResourceCells(row, full);
    Ok([StatusCell(row.status), Shown(row.id), Shown(row.date), Shown(project), Shown(purpose),
        Shown(row.experimentType), Label(ResourceLabel(row.resource))] + extra)
  }

  /** `generate_protocol_table(df, full)`. */
  function GenerateTable(df: Option<seq<LegacyRow>>, full: bool): Result<Table>
  {
    TableFrom(Columns(full), row => TableRow(row, full), df)
  }

  method GenerateProtocolTable(df: Option<seq<LegacyRow>>, full: bool) returns (r: Result<Table>)
    ensures r == GenerateTable(df, full)
  {
    r := DrawTable(Columns(full), row => TableRow(row, full), df);
  }

  /** A table has 7 columns, 11 in full mode; every row has as many cells,
      newest first; text projects and purposes are cut to 20 and 25
      characters; rows whose projects and purposes are text and whose
      counts are integers never raise. */
  lemma TableShape(df: Option<seq<LegacyRow>>, full: bool)
    ensures GenerateTable(df, full).Ok? ==> |GenerateTable(df, full).value.columns| == (if full then 11 else 7)
    ensures GenerateTable(df, full).Ok? ==> forall cells :: cells in GenerateTable(df, full).value.rows ==>
      |cells| == |GenerateTable(df, full).value.columns|
    ensures df.Some? && (forall i :: 0 <= i < |df.value| ==> TextualRow(df.value[i])) ==> GenerateTable(df, full).Ok?
  {
    if df.Some? && (forall i :: 0 <= i < |df.value| ==> TextualRow(df.value[i])) {
      forall i | 0 <= i < |df.value|
        ensures TableRow(df.value[i], full).Ok?
      {
        assert ResourceCells(df.value[i], full).Ok?;
      }
    }
  }

  /** A row whose text columns are strings and whose counts are integers. */
  predicate TextualRow(row: LegacyRow)
  {
    row.project.Str? && row.purpose.Str? && row.jobs.Int? && row.cpus.Int? && row.gpus.Int? && row.seeds.Int?
  }
}
