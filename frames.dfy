/** What the summary code builds with pandas and rich: a data frame, kept
    as its list of rows (each module has its own row type, one field per
    column), and a table of cells.  The rich objects themselves are not
    modelled, only what each cell holds. */
module Frames {
  import opened Values
  import opened Text
  import opened PyOps

  /** A table cell: a spinner, a fixed label, a value shown as it is, or a
      progress bar of completed out of total jobs. */
  datatype Cell = Spinner | Label(text: string) | Shown(v: Value) | Progress(total: int, completed: int)

  datatype Table = Table(columns: seq<string>, rows: seq<seq<Cell>>)

  /** Where `ids[-tail:]` starts: a positive tail counts from the end (all
      of them when it is at least the length), zero takes everything, and a
      negative tail `-p` skips the first `p`. */
  function TailStart(n: nat, tail: int): (s: nat)
    ensures s <= n
    ensures tail == 0 || tail >= n ==> s == 0
    ensures 0 < tail <= n ==> s == n - tail
    ensures tail < 0 ==> s == (if -tail <= n then -tail else n)
  {
    if tail > 0 then (if tail >= n then 0 else n - tail)
    else if tail == 0 then 0
    else if -tail <= n then -tail
    else n
  }

  /** `ids[-tail:]`, `tail` None meaning all of them. */
  function Tail<T>(ids: seq<T>, tail: Option<int>): (r: seq<T>)
    ensures |r| <= |ids| && r == ids[|ids| - |r|..]
    ensures tail.None? || tail == Some(0) ==> r == ids
    ensures tail.Some? && tail.value >= 0 ==> |r| == (if tail.value == 0 || tail.value >= |ids| then |ids| else tail.value)
    ensures tail.Some? && tail.value < 0 ==> r == ids[(if -tail.value <= |ids| then -tail.value else |ids|)..]
  {
    if tail.None? then ids else ids[TailStart(|ids|, tail.value)..]
  }

  /** The resource column of every table. */
  function ResourceLabel(v: Value): (r: string)
    ensures r in {"SGE", "Slurm", "GCP", "Local"}
    ensures r == "Local" <==> v !in {Str("sge-cluster"), Str("slurm-cluster"), Str("gcp-cloud")}
  {
    if v == Str("sge-cluster") then "SGE"
    else if v == Str("slurm-cluster") then "Slurm"
    else if v == Str("gcp-cloud") then "GCP"
    else "Local"
  }

  /** The status column: a spinner while running, a check mark once
      completed, a cross for anything else. */
  function StatusCell(v: Value): (r: Cell)
    ensures r.Spinner? <==> v == Str("running")
    ensures r.Label? <==> v != Str("running")
    ensures r == Label("[green]:heavy_check_mark:") <==> v == Str("completed")
  {
    if v == Str("running") then Spinner
    else if v == Str("completed") then Label("[green]:heavy_check_mark:")
    else Label("[red]:heavy_multiplication_x:")
  }

  /** `[f(x) for x in reversed(xs)]` where the first failure raises: the
      rows of a table, newest first. */
  function Reversed<T>(xs: seq<T>): (r: seq<T>)
    ensures |r| == |xs| && forall i :: 0 <= i < |xs| ==> r[i] == xs[|xs| - 1 - i]
  {
    seq(|xs|, i requires 0 <= i < |xs| => xs[|xs| - 1 - i])
  }

  /** `[f(x) for x in xs]` where `f` may raise: the first failure is the
      result. */
  function MapAll<A, B>(f: A -> Result<B>, xs: seq<A>): (r: Result<seq<B>>)
    ensures r.Ok? <==> forall i :: 0 <= i < |xs| ==> f(xs[i]).Ok?
    ensures r.Ok? ==> |r.value| == |xs| && forall i :: 0 <= i < |xs| ==> r.value[i] == f(xs[i]).value
    ensures r.Err? ==> exists i :: 0 <= i < |xs| && f(xs[i]) == Err(r.error) && forall j :: 0 <= j < i ==> f(xs[j]).Ok?
  {
    if xs == [] then Ok([])
    else
      var k := |xs| - 1;
      var front :- MapAll(f, xs[..k]);
      var y :- f(xs[k]);
      assert forall i :: 0 <= i < k ==> xs[..k][i] == xs[i];
      Ok(front + [y])
  }

  /** One more element, mapped without failure, extends the result. */
  lemma MapAllStep<A, B>(f: A -> Result<B>, xs: seq<A>, n: nat, ys: seq<B>)
    requires n < |xs| && MapAll(f, xs[..n]) == Ok(ys) && f(xs[n]).Ok?
    ensures MapAll(f, xs[..n + 1]) == Ok(ys + [f(xs[n]).value])
  {
    assert xs[..n + 1][..n] == xs[..n];
  }

  /** A failure on a prefix is the failure of the whole. */
  lemma {:induction false} MapAllStops<A, B>(f: A -> Result<B>, xs: seq<A>, n: nat)
    requires n <= |xs| && MapAll(f, xs[..n]).Err?
    ensures MapAll(f, xs) == MapAll(f, xs[..n])
    decreases |xs| - n
  {
    if n < |xs| {
      assert xs[..n + 1][..n] == xs[..n];
      MapAllStops(f, xs, n + 1);
    } else {
      assert xs[..n] == xs;
    }
  }

  /** The loop `for x in xs: out.append(f(x))`. */
  method MapEach<A, B>(f: A -> Result<B>, xs: seq<A>) returns (r: Result<seq<B>>)
    ensures r == MapAll(f, xs)
  {
    var ys: seq<B> := [];
    for i := 0 to |xs|
      invariant MapAll(f, xs[..i]) == Ok(ys)
    {
      var y := f(xs[i]);
      if y.Err? {
        assert xs[..i + 1][..i] == xs[..i];
        MapAllStops(f, xs, i + 1);
        return Err(y.error);
      }
      MapAllStep(f, xs, i, ys);
      ys := ys + [y.value];
    }
    assert xs[..|xs|] == xs;
    return Ok(ys);
  }

  /** A table over a frame: the headers, then one row of cells per frame
      row, the last frame row first (`for index in reversed(df.index)`);
      without a frame, the headers alone.  The first row whose cells raise
      is the error. */
  function TableFrom<R>(columns: seq<string>, cells: R -> Result<seq<Cell>>, df: Option<seq<R>>): (r: Result<Table>)
    ensures r.Ok? ==> r.value.columns == columns
    ensures df.None? ==> r == Ok(Table(columns, []))
    ensures df.Some? ==> (r.Ok? <==> forall i :: 0 <= i < |df.value| ==> cells(df.value[i]).Ok?)
    ensures df.Some? && r.Ok? ==>
      && |r.value.rows| == |df.value|
      && forall i :: 0 <= i < |df.value| ==>
           cells(df.value[|df.value| - 1 - i]).Ok? && r.value.rows[i] == cells(df.value[|df.value| - 1 - i]).value
  {
    match df
    case None => Ok(Table(columns, []))
    case Some(frame) =>
      var newestFirst := Reversed(frame);
      assert forall i :: 0 <= i < |frame| ==> frame[i] == newestFirst[|frame| - 1 - i];
      var rows :- MapAll(cells, newestFirst);
      Ok(Table(columns, rows))
  }

  /** The loop that adds the rows to the table. */
  method DrawTable<R>(columns: seq<string>, cells: R -> Result<seq<Cell>>, df: Option<seq<R>>) returns (r: Result<Table>)
    ensures r == TableFrom(columns, cells, df)
  {
    if df.None? {
      return Ok(Table(columns, []));
    }
    var rows := MapEach(cells, Reversed(df.value));
    if rows.Err? {
      return Err(rows.error);
    }
    return Ok(Table(columns, rows.value));
  }
}
