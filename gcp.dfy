/** resource/gcp.py: the instance listing of Google Cloud (`gcloud compute
    instances list`), retried until the command succeeds, then counted per
    machine type.  Each attempt of the command is the parameter
    `attempt(n)`: its output, a CalledProcessError that the loop retries,
    or any other exception (an OSError when `gcloud` is missing or not
    executable), which leaves `get_data()` at once.  The one-second pause
    between attempts is not modelled. */
module Gcp {
  import opened Values
  import opened Text
  import opened Grouping
  import opened Frames
  import opened Scheduler

  /** The outcome of one `sp.check_output(check_cmd)`. */
  datatype Attempt = Output(out: string) | CalledProcessError | Raised(error: Error)

  datatype Instance = Instance(machineType: string, status: string)

  /** One entry per machine type: its running, stopping and staging
      instances. */
  datatype TypeRow = TypeRow(machineType: string, run: nat, stop: nat, stage: nat)

  function TypeOf(i: Instance): string { i.machineType }
  predicate IsRunning(i: Instance) { i.status == "RUNNING" }
  predicate IsStopping(i: Instance) { i.status == "STOPPING" }
  predicate IsStaging(i: Instance) { i.status == "STAGING" }

  /** One line of the listing, split on white space: the machine type is
      the third token, the status the last; fewer than three tokens raise
      IndexError. */
  function ParseInstance(line: string): (r: Result<Instance>)
    ensures var t := Tokens(line, IsSpace);
      && (r.Ok? <==> |t| >= 3)
      && (r.Ok? ==> r.value == Instance(t[2], t[|t| - 1]))
  {
    var t := Tokens(line, IsSpace);
    if |t| < 3 then Err(IndexError) else Ok(Instance(t[2], t[|t| - 1]))
  }

  /** The instances of the listing after its header line. */
  function Instances(out: string): Result<seq<Instance>>
  {
    MapAll(ParseInstance, OutputLines(out, 1))
  }

  function TypeRowOf(instances: seq<Instance>, t: string): TypeRow
  {
    TypeRow(t, GroupCount(instances, TypeOf, IsRunning, t), GroupCount(instances, TypeOf, IsStopping, t),
            GroupCount(instances, TypeOf, IsStaging, t))
  }

  /** The loop over `df_gcp.experiment_type.unique()`. */
  function TypeRows(instances: seq<Instance>): (r: seq<TypeRow>)
    ensures var types := Unique(KeysOf(instances, TypeOf));
      |r| == |types| && forall i :: 0 <= i < |types| ==> r[i] == TypeRowOf(instances, types[i])
  {
    var types := Unique(KeysOf(instances, TypeOf));
    seq(|types|, i requires 0 <= i < |types| => TypeRowOf(instances, types[i]))
  }

  /** What `get_data()` returns for the listing `out`. */
  function TypeData(out: string): Result<seq<TypeRow>>
  {
    var instances :- Instances(out);
    Ok(TypeRows(instances))
  }

  /** The `while True` loop of `get_data()`: the command is retried while
      it raises CalledProcessError, and `tries` attempts fail so before the
      one that ends the loop, by producing output or by raising anything
      else.  The source loops forever when every attempt raises
      CalledProcessError, so an attempt that ends the loop is required. */
  method Retry(attempt: nat -> Attempt) returns (tries: nat)
    requires exists n :: !attempt(n).CalledProcessError?
    ensures !attempt(tries).CalledProcessError?
    ensures forall n :: 0 <= n < tries ==> attempt(n).CalledProcessError?
  {
    ghost var stop: nat :| !attempt(stop).CalledProcessError?;
    tries := 0;
    while attempt(tries).CalledProcessError?
      invariant tries <= stop
      invariant forall n :: 0 <= n < tries ==> attempt(n).CalledProcessError?
      decreases stop - tries
    {
      tries := tries + 1;
    }
  }

  /** The loops of `get_data()` over the listing `out`. */
  method CountTypes(out: string) returns (r: Result<seq<TypeRow>>)
    ensures r == TypeData(out)
  {
    var instances := MapEach(ParseInstance, OutputLines(out, 1));
    if instances.Err? {
      return Err(instances.error);
    }
    var types := Unique(KeysOf(instances.value, TypeOf));
    var rows := ForEach(t => TypeRowOf(instances.value, t), types);
    assert rows == TypeRows(instances.value);
    return Ok(rows);
  }

  /** `get_data()`: the rows of the first listing the command produces,
      or the exception of the attempt that raised something other than
      CalledProcessError, before any listing is read. */
  method GetData(attempt: nat -> Attempt) returns (tries: nat, r: Result<seq<TypeRow>>)
    requires exists n :: !attempt(n).CalledProcessError?
    ensures forall n :: 0 <= n < tries ==> attempt(n).CalledProcessError?
    ensures attempt(tries).Raised? ==> r == Err(attempt(tries).error)
    ensures attempt(tries).Output? ==> r == TypeData(attempt(tries).out)
    ensures !attempt(tries).CalledProcessError?
  {
    tries := Retry(attempt);
    match attempt(tries)
    case Raised(e) =>
      r := Err(e);
    case Output(out) =>
      r := CountTypes(out);
  }

  /** The total of one column over the rows. */
  function ColumnTotal(rows: seq<TypeRow>, column: TypeRow -> nat): nat
  {
    if rows == [] then 0 else ColumnTotal(rows[..|rows| - 1], column) + column(rows[|rows| - 1])
  }

  function Run(row: TypeRow): nat { row.run }
  function Stop(row: TypeRow): nat { row.stop }
  function Stage(row: TypeRow): nat { row.stage }

  /** A column of the rows of `types` adds up the group counts of its
      status over those types. */
  lemma {:induction false} ColumnOfTypes(instances: seq<Instance>, types: seq<string>, rows: seq<TypeRow>,
                                         column: TypeRow -> nat, p: Instance -> bool)
    requires |rows| == |types|
    requires forall i :: 0 <= i < |types| ==> column(rows[i]) == GroupCount(instances, TypeOf, p, types[i])
    ensures ColumnTotal(rows, column) == GroupTotal(instances, TypeOf, p, types)
  {
    if types != [] {
      ColumnOfTypes(instances, types[..|types| - 1], rows[..|rows| - 1], column, p);
    }
  }

  /** Each machine type has one row, in order of its first instance; a
      type's three counts are at most its instances; and each column adds
      up to all instances in that status. */
  lemma TypeCounts(instances: seq<Instance>)
    ensures var rows := TypeRows(instances);
      && (forall i :: 0 <= i < |rows| ==> rows[i].machineType == Unique(KeysOf(instances, TypeOf))[i])
      && (forall row :: row in rows ==>
            row.run + row.stop + row.stage <= GroupCount(instances, TypeOf, Always, row.machineType))
      && ColumnTotal(rows, Run) == CountWhere(instances, IsRunning)
      && ColumnTotal(rows, Stop) == CountWhere(instances, IsStopping)
      && ColumnTotal(rows, Stage) == CountWhere(instances, IsStaging)
  {
    var types := Unique(KeysOf(instances, TypeOf));
    var rows := TypeRows(instances);
    forall row | row in rows
      ensures row.run + row.stop + row.stage <= GroupCount(instances, TypeOf, Always, row.machineType)
    {
      GroupAtMost(instances, TypeOf, IsRunning, IsStopping, IsStaging, row.machineType);
    }
    ColumnOfTypes(instances, types, rows, Run, IsRunning);
    ColumnOfTypes(instances, types, rows, Stop, IsStopping);
    ColumnOfTypes(instances, types, rows, Stage, IsStaging);
    GroupsPartition(instances, TypeOf, IsRunning);
    GroupsPartition(instances, TypeOf, IsStopping);
    GroupsPartition(instances, TypeOf, IsStaging);
  }
}
