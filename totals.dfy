/** `get_total_experiments`, identical in protocol/summary.py,
    protocol/monitor_db.py and monitor/monitor_db.py: one pass over the ids
    counting statuses, execution resources and three bookkeeping flags, the
    counts returned as decimal strings. */
module Totals {
  import opened Values
  import opened Text
  import opened ProtocolStore

  datatype Counts = Counts(run: int, done: int, aborted: int,
                           sge: int, slurm: int, gcp: int, local: int,
                           reportGen: int, gcsStored: int, retrieved: int)

  const Zero := Counts(0, 0, 0, 0, 0, 0, 0, 0, 0, 0)

  /** The flag the loops read for "stored in the cloud" ... */
  const GcsFieldAsWritten := "stored_in_gcloud"
  /** ... and the one add.py writes. */
  const GcsField := "stored_in_cloud"

  function Bit(b: bool): int
  {
    if b then 1 else 0
  }

  /** `n += db.get(e_id, field)` where it can fail: the number a flag adds,
      or None when the read or the addition raises. */
  function FlagValue(store: Store, key: string, field: string): Option<int>
  {
    match DGet(store, key, field)
    case Err(_) => None
    case Ok(v) => match AsNumber(v)
      case Err(_) => None
      case Ok(n) => Some(n)
  }

  /** The `try` block: the three flags in order; the first one that raises
      skips the rest, and the earlier additions stay. */
  function Flags(t: Counts, store: Store, key: string, gcsField: string): Counts
  {
    match FlagValue(store, key, "report_generated")
    case None => t
    case Some(a) =>
      var t1 := t.(reportGen := t.reportGen + a);
      match FlagValue(store, key, gcsField)
      case None => t1
      case Some(b) =>
        var t2 := t1.(gcsStored := t1.gcsStored + b);
        match FlagValue(store, key, "retrieved_results")
        case None => t2
        case Some(c) => t2.(retrieved := t2.retrieved + c)
  }

  /** One iteration of the loop; the status and resource reads raise. */
  function Tally(t: Counts, store: Store, key: string, gcsField: string): Result<Counts>
  {
    var status :- DGet(store, key, "job_status");
    var resource :- DGet(store, key, "exec_resource");
    var running, completed := status == Str("running"), status == Str("completed");
    var isSge, isSlurm, isGcp := resource == Str("sge-cluster"), resource == Str("slurm-cluster"), resource == Str("gcp-cloud");
    var t1 := t.(run := t.run + Bit(running), done := t.done + Bit(completed),
                 aborted := t.aborted + Bit(!running && !completed),
                 sge := t.sge + Bit(isSge), slurm := t.slurm + Bit(isSlurm), gcp := t.gcp + Bit(isGcp),
                 local := t.local + Bit(!isSge && !isSlurm && !isGcp));
    Ok(Flags(t1, store, key, gcsField))
  }

  /** One iteration once both reads have succeeded. */
  lemma TallyOk(t: Counts, store: Store, key: string, gcsField: string, status: Value, resource: Value)
    requires DGet(store, key, "job_status") == Ok(status)
    requires DGet(store, key, "exec_resource") == Ok(resource)
    ensures var running, completed := status == Str("running"), status == Str("completed");
      var isSge, isSlurm, isGcp := resource == Str("sge-cluster"), resource == Str("slurm-cluster"), resource == Str("gcp-cloud");
      Tally(t, store, key, gcsField) == Ok(Flags(t.(run := t.run + Bit(running), done := t.done + Bit(completed),
                 aborted := t.aborted + Bit(!running && !completed),
                 sge := t.sge + Bit(isSge), slurm := t.slurm + Bit(isSlurm), gcp := t.gcp + Bit(isGcp),
                 local := t.local + Bit(!isSge && !isSlurm && !isGcp)), store, key, gcsField))
  {
  }

  /** The counts after the loop has gone over `keys`. */
  function TotalsOf(store: Store, keys: seq<string>, gcsField: string): Result<Counts>
  {
    if keys == [] then Ok(Zero)
    else
      var t :- TotalsOf(store, keys[..|keys| - 1], gcsField);
      Tally(t, store, keys[|keys| - 1], gcsField)
  }

  /** The eleven keys of the returned dict. */
  const TotalsKeys: set<string> := {"total", "run", "done", "aborted", "sge", "slurm", "gcp",
    "local", "report_gen", "gcs_stored", "retrieved"}

  /** The count shown under key `k`: "total" is the number of ids. */
  function CountOf(t: Counts, n: int, k: string): int
  {
    if k == "total" then n
    else if k == "run" then t.run
    else if k == "done" then t.done
    else if k == "aborted" then t.aborted
    else if k == "sge" then t.sge
    else if k == "slurm" then t.slurm
    else if k == "gcp" then t.gcp
    else if k == "local" then t.local
    else if k == "report_gen" then t.reportGen
    else if k == "gcs_stored" then t.gcsStored
    else t.retrieved
  }

  /** The returned dict: every count as `str`. */
  function Render(t: Counts, n: int): map<string, string>
  {
    map k | k in TotalsKeys :: IntToString(CountOf(t, n, k))
  }

  /** The totals shown when there are no experiments. */
  const EmptyTotals: map<string, string> := map k | k in TotalsKeys :: "0"

  /** The whole function, as the source reads the flags. */
  function TotalsAsWritten(store: Store, keys: seq<string>): Result<map<string, string>>
  {
    var t :- TotalsOf(store, keys, GcsFieldAsWritten);
    Ok(Render(t, |keys|))
  }

  /** The whole function, reading the flag add.py writes. */
  function TotalExperiments(store: Store, keys: seq<string>): Result<map<string, string>>
  {
    var t :- TotalsOf(store, keys, GcsField);
    Ok(Render(t, |keys|))
  }

  lemma {:induction false} TotalsStops(store: Store, keys: seq<string>, gcsField: string, i: nat)
    requires i <= |keys| && TotalsOf(store, keys[..i], gcsField).Err?
    ensures TotalsOf(store, keys, gcsField) == TotalsOf(store, keys[..i], gcsField)
    decreases |keys| - i
  {
    if i < |keys| {
      assert keys[..i + 1][..i] == keys[..i];
      TotalsStops(store, keys, gcsField, i + 1);
    } else {
      assert keys[..i] == keys;
    }
  }

  /** The `try` block on the three running sums. */
  method TryFlags(ghost t: Counts, store: Store, key: string, gcsField: string, reportGen: int, gcsStored: int, retrieved: int)
    returns (reportGen': int, gcsStored': int, retrieved': int)
    requires t.reportGen == reportGen && t.gcsStored == gcsStored && t.retrieved == retrieved
    ensures Flags(t, store, key, gcsField) == t.(reportGen := reportGen', gcsStored := gcsStored', retrieved := retrieved')
  {
    reportGen', gcsStored', retrieved' := reportGen, gcsStored, retrieved;
    var a := FlagValue(store, key, "report_generated");
    if a.None? {
      return;
    }
    reportGen' := reportGen' + a.value;
    var b := FlagValue(store, key, gcsField);
    if b.None? {
      return;
    }
    gcsStored' := gcsStored' + b.value;
    var c := FlagValue(store, key, "retrieved_results");
    if c.None? {
      return;
    }
    retrieved' := retrieved' + c.value;
  }

  /** `get_total_experiments(db, all_experiment_ids)`: the counting loop,
      reading the cloud flag from `gcsField`. */
  method GetTotalExperiments(store: Store, keys: seq<string>, gcsField: string) returns (r: Result<map<string, string>>)
    ensures var t := TotalsOf(store, keys, gcsField);
      && (t.Ok? ==> r == Ok(Render(t.value, |keys|)))
      && (t.Err? ==> r == Err(t.error))
  {
    var run, done, aborted, sge, slurm, gcp, local := 0, 0, 0, 0, 0, 0, 0;
    var reportGen, gcsStored, retrieved := 0, 0, 0;
    for i := 0 to |keys|
      invariant TotalsOf(store, keys[..i], gcsField)
        == Ok(Counts(run, done, aborted, sge, slurm, gcp, local, reportGen, gcsStored, retrieved))
    {
      assert keys[..i + 1][..i] == keys[..i];
      ghost var run0, done0, aborted0, sge0, slurm0, gcp0, local0 := run, done, aborted, sge, slurm, gcp, local;
      ghost var rg0, gs0, rt0 := reportGen, gcsStored, retrieved;
      var status := DGet(store, keys[i], "job_status");
      if status.Err? {
        TotalsStops(store, keys, gcsField, i + 1);
        return Err(status.error);
      }
      run := run + Bit(status.value == Str("running"));
      done := done + Bit(status.value == Str("completed"));
      aborted := aborted + Bit(status.value != Str("running") && status.value != Str("completed"));
      var resource := DGet(store, keys[i], "exec_resource");
      if resource.Err? {
        TotalsStops(store, keys, gcsField, i + 1);
        return Err(resource.error);
      }
      sge := sge + Bit(resource.value == Str("sge-cluster"));
      slurm := slurm + Bit(resource.value == Str("slurm-cluster"));
      gcp := gcp + Bit(resource.value == Str("gcp-cloud"));
      local := local + Bit(resource.value != Str("sge-cluster") && resource.value != Str("slurm-cluster")
                           && resource.value != Str("gcp-cloud"));
      TallyOk(Counts(run0, done0, aborted0, sge0, slurm0, gcp0, local0, rg0, gs0, rt0), store, keys[i], gcsField,
              status.value, resource.value);
      reportGen, gcsStored, retrieved := TryFlags(Counts(run, done, aborted, sge, slurm, gcp, local, rg0, gs0, rt0),
                                                  store, keys[i], gcsField, reportGen, gcsStored, retrieved);
      assert Tally(Counts(run0, done0, aborted0, sge0, slurm0, gcp0, local0, rg0, gs0, rt0), store, keys[i], gcsField)
          == Ok(Counts(run, done, aborted, sge, slurm, gcp, local, reportGen, gcsStored, retrieved));
    }
    assert keys[..|keys|] == keys;
    return Ok(Render(Counts(run, done, aborted, sge, slurm, gcp, local, reportGen, gcsStored, retrieved), |keys|));
  }

  // ---- What the counters promise ----

  /** The loop completes exactly when every id has a status and a resource. */
  lemma {:induction false} TotalsDefined(store: Store, keys: seq<string>, gcsField: string)
    ensures TotalsOf(store, keys, gcsField).Ok? <==>
      forall i :: 0 <= i < |keys| ==> DGet(store, keys[i], "job_status").Ok? && DGet(store, keys[i], "exec_resource").Ok?
  {
    if keys != [] {
      var n := |keys| - 1;
      TotalsDefined(store, keys[..n], gcsField);
      assert forall i :: 0 <= i < n ==> keys[..n][i] == keys[i];
    }
  }

  /** Every id is counted under exactly one status (anything but running or
      completed counts as aborted) and exactly one resource (anything
      unknown counts as local). */
  lemma {:induction false} TotalsPartition(store: Store, keys: seq<string>, gcsField: string)
    requires TotalsOf(store, keys, gcsField).Ok?
    ensures var t := TotalsOf(store, keys, gcsField).value;
      && t.run + t.done + t.aborted == |keys|
      && t.sge + t.slurm + t.gcp + t.local == |keys|
      && 0 <= t.run && 0 <= t.done && 0 <= t.aborted
      && 0 <= t.sge && 0 <= t.slurm && 0 <= t.gcp && 0 <= t.local
  {
    if keys != [] {
      TotalsPartition(store, keys[..|keys| - 1], gcsField);
    }
  }

  /** Every entry of the dict reads back, with `int`, as the count it shows. */
  lemma RenderReadsBack(t: Counts, n: int)
    ensures Render(t, n).Keys == TotalsKeys
    ensures forall k :: k in Render(t, n) ==> ParseInt(Render(t, n)[k]) == Ok(CountOf(t, n, k))
  {
    forall k | k in TotalsKeys ensures ParseInt(Render(t, n)[k]) == Ok(CountOf(t, n, k)) {
      ParseIntRoundTrip(CountOf(t, n, k));
    }
  }

  /** The placeholder for no experiments is what counting no ids gives. */
  lemma PlaceholderIsEmptyCount(store: Store, gcsField: string)
    ensures TotalsOf(store, [], gcsField) == Ok(Zero)
    ensures Render(Zero, 0) == EmptyTotals
  {
    assert NatToString(0) == "0" by {
      assert Canonical(NatToString(0)) && DecimalValue(NatToString(0)) == 0;
      DecimalRoundTrip(NatToString(0));
    }
    forall k | k in TotalsKeys ensures CountOf(Zero, 0, k) == 0 { }
  }

  // ---- The cloud flag ----

  /** How many of the records of `keys` hold `field == True`. */
  function CountTrue(store: Store, keys: seq<string>, field: string): nat
  {
    if keys == [] then 0
    else CountTrue(store, keys[..|keys| - 1], field) + Bit(DGet(store, keys[|keys| - 1], field) == Ok(Bool(true)))
  }

  /** The three flags as add.py writes them: booleans under their names. */
  ghost predicate FlagsAsAdded(store: Store, keys: seq<string>)
  {
    forall i :: 0 <= i < |keys| ==>
      && DGet(store, keys[i], "report_generated").Ok? && DGet(store, keys[i], "report_generated").value.Bool?
      && DGet(store, keys[i], GcsField).Ok? && DGet(store, keys[i], GcsField).value.Bool?
      && DGet(store, keys[i], "retrieved_results").Ok? && DGet(store, keys[i], "retrieved_results").value.Bool?
  }

  lemma FlagsAsAddedPrefix(store: Store, keys: seq<string>)
    requires |keys| > 0 && FlagsAsAdded(store, keys)
    ensures FlagsAsAdded(store, keys[..|keys| - 1])
  {
    assert forall i :: 0 <= i < |keys| - 1 ==> keys[..|keys| - 1][i] == keys[i];
  }

  /** The flags of one record as add.py writes them each add 0 or 1. */
  lemma FlagsOfBools(t: Counts, store: Store, key: string)
    requires DGet(store, key, "report_generated").Ok? && DGet(store, key, "report_generated").value.Bool?
    requires DGet(store, key, GcsField).Ok? && DGet(store, key, GcsField).value.Bool?
    requires DGet(store, key, "retrieved_results").Ok? && DGet(store, key, "retrieved_results").value.Bool?
    ensures var f := Flags(t, store, key, GcsField);
      && f.reportGen == t.reportGen + Bit(DGet(store, key, "report_generated") == Ok(Bool(true)))
      && f.gcsStored == t.gcsStored + Bit(DGet(store, key, GcsField) == Ok(Bool(true)))
      && f.retrieved == t.retrieved + Bit(DGet(store, key, "retrieved_results") == Ok(Bool(true)))
  {
  }

  /** Reading the flag add.py writes, the three flag counts are the numbers
      of records whose flag is True. */
  lemma {:induction false} FlagCountsCorrected(store: Store, keys: seq<string>)
    requires TotalsOf(store, keys, GcsField).Ok? && FlagsAsAdded(store, keys)
    ensures var t := TotalsOf(store, keys, GcsField).value;
      && t.reportGen == CountTrue(store, keys, "report_generated")
      && t.gcsStored == CountTrue(store, keys, GcsField)
      && t.retrieved == CountTrue(store, keys, "retrieved_results")
  {
    if keys != [] {
      var n := |keys| - 1;
      FlagsAsAddedPrefix(store, keys);
      FlagCountsCorrected(store, keys[..n]);
      assert DGet(store, keys[n], "report_generated").Ok? && DGet(store, keys[n], "report_generated").value.Bool?;
      assert DGet(store, keys[n], GcsField).Ok? && DGet(store, keys[n], GcsField).value.Bool?;
      assert DGet(store, keys[n], "retrieved_results").Ok? && DGet(store, keys[n], "retrieved_results").value.Bool?;
      FlagStep(store, keys);
    }
  }

  /** The last record's flags, as add.py writes them, each add 0 or 1. */
  lemma FlagStep(store: Store, keys: seq<string>)
    requires |keys| > 0 && TotalsOf(store, keys, GcsField).Ok?
    requires var key := keys[|keys| - 1];
      && DGet(store, key, "report_generated").Ok? && DGet(store, key, "report_generated").value.Bool?
      && DGet(store, key, GcsField).Ok? && DGet(store, key, GcsField).value.Bool?
      && DGet(store, key, "retrieved_results").Ok? && DGet(store, key, "retrieved_results").value.Bool?
    ensures var n := |keys| - 1;
      var t0 := TotalsOf(store, keys[..n], GcsField).value;
      var t := TotalsOf(store, keys, GcsField).value;
      && t.reportGen == t0.reportGen + Bit(DGet(store, keys[n], "report_generated") == Ok(Bool(true)))
      && t.gcsStored == t0.gcsStored + Bit(DGet(store, keys[n], GcsField) == Ok(Bool(true)))
      && t.retrieved == t0.retrieved + Bit(DGet(store, keys[n], "retrieved_results") == Ok(Bool(true)))
  {
    var n := |keys| - 1;
    var t0 := TotalsOf(store, keys[..n], GcsField).value;
    var status := DGet(store, keys[n], "job_status").value;
    var resource := DGet(store, keys[n], "exec_resource").value;
    TallyOk(t0, store, keys[n], GcsField, status, resource);
    var running, completed := status == Str("running"), status == Str("completed");
    var isSge, isSlurm, isGcp := resource == Str("sge-cluster"), resource == Str("slurm-cluster"), resource == Str("gcp-cloud");
    var t1 := t0.(run := t0.run + Bit(running), done := t0.done + Bit(completed),
                  aborted := t0.aborted + Bit(!running && !completed),
                  sge := t0.sge + Bit(isSge), slurm := t0.slurm + Bit(isSlurm), gcp := t0.gcp + Bit(isGcp),
                  local := t0.local + Bit(!isSge && !isSlurm && !isGcp));
    FlagsOfBools(t1, store, keys[n]);
  }

  /** As written: for records that have no "stored_in_gcloud" field, as
      every record add.py creates, the read of that flag raises inside the
      `try`, so the cloud and the retrieved counts stay 0 however many
      results were retrieved. */
  lemma {:induction false} FlagCountsAsWritten(store: Store, keys: seq<string>)
    requires TotalsOf(store, keys, GcsFieldAsWritten).Ok?
    requires forall i :: 0 <= i < |keys| ==> DGet(store, keys[i], GcsFieldAsWritten).Err?
    ensures var t := TotalsOf(store, keys, GcsFieldAsWritten).value;
      t.gcsStored == 0 && t.retrieved == 0
  {
    if keys != [] {
      var n := |keys| - 1;
      assert forall i :: 0 <= i < n ==> keys[..n][i] == keys[i];
      FlagCountsAsWritten(store, keys[..n]);
    }
  }

  /** One record as add.py leaves it, whose results were retrieved: the
      source counts 0 retrieved experiments, the corrected count 1. */
  lemma RetrievedMissedAsWritten()
    ensures var rec := map["job_status" := Str("completed"), "exec_resource" := Str("local"),
                           "report_generated" := Bool(false), GcsField := Bool(true),
                           "retrieved_results" := Bool(true)];
      var store := map["1" := Fields(rec)];
      && TotalsOf(store, ["1"], GcsFieldAsWritten).Ok?
      && TotalsOf(store, ["1"], GcsFieldAsWritten).value.retrieved == 0
      && TotalsOf(store, ["1"], GcsField).Ok?
      && TotalsOf(store, ["1"], GcsField).value.retrieved == 1
  {
    var rec := map["job_status" := Str("completed"), "exec_resource" := Str("local"),
                   "report_generated" := Bool(false), GcsField := Bool(true),
                   "retrieved_results" := Bool(true)];
    var store := map["1" := Fields(rec)];
    assert ["1"][..0] == [];
    assert GcsFieldAsWritten !in rec;
    assert FlagValue(store, "1", GcsFieldAsWritten) == None;
    assert FlagValue(store, "1", GcsField) == Some(1);
    assert FlagValue(store, "1", "retrieved_results") == Some(1);
  }
}
