/** `MLEProtocol` (mle_protocol.py): the protocol object holding the
    database, the list of experiment ids and the last id.  It is loaded from
    its pickle file, and `add`, `abort`, `delete` and `update` change the
    database in place, dumping it to the file when asked to. */
module Protocol {
  import opened Values
  import opened Text
  import opened ProtocolStore
  import opened ProtocolLoad
  import ExperimentAdd
  import SummarySeries
  import Frames
  import Views
  import Tables
  import SummaryPanels

  /** The fourteen fields `add` requires of `standard`. */
  const StandardKeys: seq<string> := ["purpose", "project_name", "exec_resource",
    "experiment_dir", "experiment_type", "base_fname", "config_fname", "num_seeds",
    "num_total_jobs", "num_job_batches", "num_jobs_per_batch", "time_per_job",
    "num_cpus", "num_gpus"]

  /** An experiment id as callers pass it: a str, or an int.  The list of ids
      holds both kinds: loaded ids are strs, ids appended by `add` are ints. */
  datatype ExperimentRef = Name(s: string) | Number(n: int)

  /** `str(experiment_id)`. */
  function KeyOf(id: ExperimentRef): string
  {
    match id
    case Name(s) => s
    case Number(n) => IntToString(n)
  }

  function Names(ids: seq<string>): (r: seq<ExperimentRef>)
    ensures |r| == |ids| && forall i :: 0 <= i < |ids| ==> r[i] == Name(ids[i])
  {
    seq(|ids|, i requires 0 <= i < |ids| => Name(ids[i]))
  }

  /** `str(e_id)` of every id, the keys the summary code reads. */
  function KeysOf(ids: seq<ExperimentRef>): (r: seq<string>)
    ensures |r| == |ids| && forall i :: 0 <= i < |ids| ==> r[i] == KeyOf(ids[i])
  {
    seq(|ids|, i requires 0 <= i < |ids| => KeyOf(ids[i]))
  }

  /** What `summary` returns: the frame (None without experiments), or the
      table drawn from it. */
  datatype SummaryOutput = FrameOut(frame: Option<seq<Tables.FrameRow>>) | TableOut(table: Frames.Table)

  /** What `monitor` returns: the three panels and the table of the latest
      29 experiments. */
  datatype MonitorData = MonitorData(panels: Views.Panels, table: Frames.Table)

  /** `for k in keys: assert k in rec.keys()`, as one check. */
  ghost predicate HasAll(keys: seq<string>, rec: Record)
  {
    forall i :: 0 <= i < |keys| ==> keys[i] in rec
  }

  /** The loop of assertions over `keys`. */
  method CheckKeys(keys: seq<string>, rec: Record) returns (ok: bool)
    ensures ok <==> HasAll(keys, rec)
    ensures !ok ==> exists i :: 0 <= i < |keys| && keys[i] !in rec
  {
    for i := 0 to |keys|
      invariant forall j :: 0 <= j < i ==> keys[j] in rec
    {
      if keys[i] !in rec {
        return false;
      }
    }
    return true;
  }

  /** What the assertions at the start of `add` raise, if anything: a
      missing standard key, then (only when `extra` is given) iterating
      `extra_keys` = None (TypeError) or a missing extra key. */
  ghost function AddCheck(standard: Record, extra: Option<Record>, extraKeys: Option<seq<string>>): Option<Error>
  {
    if !HasAll(StandardKeys, standard) then Some(AssertionError)
    else if extra.None? then None
    else if extraKeys.None? then Some(TypeError)
    else if !HasAll(extraKeys.value, extra.value) then Some(AssertionError)
    else None
  }

  // ---- `update` ----

  /** The value names for `update`: one name, or a list of them. */
  datatype UpdateNames = OneName(name: string) | ManyNames(names: seq<string>)

  /** `var_value[i]`: an item of a list, a one-character str of a str;
      a dict with str keys has no key `i`; anything else is not subscriptable. */
  function Index(v: Value, i: nat): (r: Result<Value>)
    ensures v.List? && i < |v.items| ==> r == Ok(v.items[i])
    ensures v.List? && i >= |v.items| ==> r == Err(IndexError)
    ensures v.Str? ==> (r.Ok? <==> i < |v.s|)
  {
    match v
    case List(items) => if i < |items| then Ok(items[i]) else Err(IndexError)
    case Str(s) => if i < |s| then Ok(Str([s[i]])) else Err(IndexError)
    case Dict(_) => Err(KeyError)
    case _ => Err(TypeError)
  }

  /** The first `n` iterations of the list branch of `update` on record
      `key`, stopping at the first exception. */
  function Writes(store: Store, key: string, names: seq<string>, values: Value, n: nat)
    : SummarySeries.Partial<Store>
    requires n <= |names|
  {
    if n == 0 then SummarySeries.Partial(store, None)
    else
      var p := Writes(store, key, names, values, n - 1);
      if p.error.Some? then p
      else match Index(values, n - 1)
        case Err(e) => SummarySeries.Partial(p.value, Some(e))
        case Ok(v) =>
          match WithField(p.value, key, names[n - 1], v)
          case Err(e) => SummarySeries.Partial(p.value, Some(e))
          case Ok(s) => SummarySeries.Partial(s, None)
  }

  /** The whole of `update` on the store. */
  function Updated(store: Store, key: string, names: UpdateNames, values: Value): SummarySeries.Partial<Store>
  {
    match names
    case ManyNames(ns) => Writes(store, key, ns, values, |ns|)
    case OneName(name) =>
      match WithField(store, key, name, values)
      case Ok(s) => SummarySeries.Partial(s, None)
      case Err(e) => SummarySeries.Partial(store, Some(e))
  }

  lemma {:induction false} WritesStops(store: Store, key: string, names: seq<string>, values: Value, i: nat, n: nat)
    requires i <= n <= |names|
    requires Writes(store, key, names, values, i).error.Some?
    ensures Writes(store, key, names, values, n) == Writes(store, key, names, values, i)
    decreases n
  {
    if n > i {
      WritesStops(store, key, names, values, i, n - 1);
    }
  }

  /** The value the last write of field `f` stores, searching from the end:
      a name that repeats keeps its later value. */
  function LastWrite(names: seq<string>, items: seq<Value>, f: string): (r: Option<Value>)
    requires |items| >= |names|
    ensures r.Some? <==> f in names
    ensures r.Some? ==> exists j :: 0 <= j < |names| && names[j] == f && r.value == items[j]
                                      && forall j' :: j < j' < |names| ==> names[j'] != f
  {
    if names == [] then None
    else
      var n := |names| - 1;
      if names[n] == f then Some(items[n])
      else
        var r := LastWrite(names[..n], items, f);
        assert forall j :: 0 <= j < n ==> names[..n][j] == names[j];
        assert f in names ==> f in names[..n] by {
          if f in names {
            var j :| 0 <= j < |names| && names[j] == f;
            assert names[..n][j] == f;
          }
        }
        r
  }

  /** The list branch succeeds when the record exists and there are enough
      values, and it leaves the record with every named field set to its last
      written value and every other field as it was; the other records do not
      change. */
  lemma {:induction false} WritesLastWins(store: Store, key: string, names: seq<string>, items: seq<Value>, n: nat)
    requires key in store && store[key].Fields?
    requires n <= |names| <= |items|
    ensures var p := Writes(store, key, names, List(items), n);
      && p.error.None?
      && p.value.Keys == store.Keys
      && (forall k :: k in store && k != key ==> p.value[k] == store[k])
      && p.value[key].Fields?
      && (forall f :: f in names[..n] ==> f in p.value[key].fields
                                            && p.value[key].fields[f] == LastWrite(names[..n], items, f).value)
      && (forall f :: f !in names[..n] ==> (f in p.value[key].fields <==> f in store[key].fields))
      && (forall f :: f !in names[..n] && f in store[key].fields ==> p.value[key].fields[f] == store[key].fields[f])
  {
    if n > 0 {
      WritesLastWins(store, key, names, items, n - 1);
      var before := names[..n - 1];
      assert names[..n] == before + [names[n - 1]];
      assert names[..n][..n - 1] == before;
      forall f | f in before && f != names[n - 1]
        ensures LastWrite(names[..n], items, f) == LastWrite(before, items, f)
      {
      }
    }
  }

  /** Too few values: the list branch raises IndexError after writing the
      ones there are. */
  lemma ShortValues(store: Store, key: string, names: seq<string>, items: seq<Value>)
    requires key in store && store[key].Fields?
    requires |items| < |names|
    ensures Writes(store, key, names, List(items), |names|).error == Some(IndexError)
    ensures Writes(store, key, names, List(items), |names|).value
         == Writes(store, key, names[..|items|], List(items), |items|).value
  {
    WritesLastWins(store, key, names[..|items|], items, |items|);
    WritesPrefix(store, key, names, List(items), |items|);
    WritesStops(store, key, names, List(items), |items| + 1, |names|);
  }

  lemma {:induction false} WritesPrefix(store: Store, key: string, names: seq<string>, values: Value, n: nat)
    requires n <= |names|
    ensures Writes(store, key, names, values, n) == Writes(store, key, names[..n], values, n)
    decreases n
  {
    if n > 0 {
      WritesPrefix(store, key, names, values, n - 1);
      WritesPrefix(store, key, names[..n], values, n - 1);
      assert names[..n][..n - 1] == names[..n - 1];
      assert names[..n][n - 1] == names[n - 1];
    }
  }

  /** A missing record: the first write raises KeyError and nothing changes. */
  lemma MissingRecord(store: Store, key: string, names: UpdateNames, items: seq<Value>)
    requires key !in store
    requires names.ManyNames? ==> 0 < |names.names| <= |items|
    ensures Updated(store, key, names, List(items)) == SummarySeries.Partial(store, Some(KeyError))
  {
    if names.ManyNames? {
      WritesStops(store, key, names.names, List(items), 1, |names.names|);
    }
  }

  /** `abort` overwrites the status of an existing record whatever it was,
      and `status` reads "aborted" back; no other record changes. */
  lemma AbortThenStatus(store: Store, key: string)
    requires key in store && store[key].Fields?
    ensures var s := WithField(store, key, "job_status", Str("aborted"));
      && s.Ok?
      && DGet(s.value, key, "job_status") == Ok(Str("aborted"))
      && forall k :: k in store && k != key ==> s.value[k] == store[k]
  {
  }

  /** A successful add stores each standard field that neither `extra` nor
      the function itself overwrites, under `str(new id)`, where `get` reads
      it back. */
  lemma AddThenGet(store: Store, last: int, standard: Record, extra: Option<Record>, env: ExperimentAdd.Environment, k: string)
    requires ExperimentAdd.Experiment(store, last, standard, extra, env).result.Ok?
    requires k in standard && k !in ExperimentAdd.Written && (extra.None? || k !in extra.value)
    ensures var a := ExperimentAdd.Experiment(store, last, standard, extra, env);
      && KeyOf(Number(a.result.value)) == ExperimentAdd.NewId(last)
      && DGet(a.store, KeyOf(Number(a.result.value)), k) == Ok(standard[k])
  {
    ExperimentAdd.AddedRecord(store, last, standard, extra, env);
  }

  /** After `delete` the record is gone from the store, but a later load is
      the first to drop it from the ids. */
  lemma DeletedOnReload(keys: seq<string>, key: string)
    requires Distinct(keys) && key in keys
    ensures key !in ExperimentIds(Without(keys, key))
    ensures key != SummaryKey ==> key in ExperimentIds(keys)
  {
    ExperimentIdsAreKeys(Without(keys, key));
    ExperimentIdsAreKeys(keys);
  }

  class MLEProtocol {
    var db: PickleDb
    var experimentIds: seq<ExperimentRef>
    var lastExperimentId: int
    const extraKeys: Option<seq<string>>
    const file: PickleFile

    ghost predicate Valid()
      reads this, db, file
    {
      && db.Valid() && db.file == file
      && (file.contents.Some? ==> Enumerates(file.contents.value.keys, file.contents.value.entries))
    }

    constructor Loaded(f: PickleFile, keys: Option<seq<string>>, d: PickleDb, ids: seq<string>, last: int)
      requires d.Valid() && d.file == f
      requires f.contents.Some? ==> Enumerates(f.contents.value.keys, f.contents.value.entries)
      ensures Valid() && file == f && db == d && extraKeys == keys
      ensures experimentIds == Names(ids) && lastExperimentId == last
    {
      file := f;
      extraKeys := keys;
      db := d;
      experimentIds := Names(ids);
      lastExperimentId := last;
    }

    /** `MLEProtocol(protocol_fname, extra_keys)`: loads the file; the
        ValueError of a non-numeric last id escapes the constructor. */
    static method Open(f: PickleFile, keys: Option<seq<string>>) returns (r: Result<MLEProtocol>)
      requires f.contents.Some? ==> Enumerates(f.contents.value.keys, f.contents.value.entries)
      ensures r.Ok? ==> fresh(r.value) && fresh(r.value.db) && r.value.Valid()
      ensures r.Ok? ==> r.value.file == f && r.value.extraKeys == keys
      ensures r.Ok? ==> r.value.experimentIds == Names(ExperimentIds(r.value.db.keys))
                        && Ok(r.value.lastExperimentId) == LastId(ExperimentIds(r.value.db.keys))
      ensures var stored := if f.contents.Some? then f.contents.value.keys else [];
        r.Err? <==> LastId(ExperimentIds(stored)).Err?
    {
      var d, ids, last := LoadProtocolDb(f);
      if last.Err? {
        return Err(last.error);
      }
      var p := new MLEProtocol.Loaded(f, keys, d, ids, last.value);
      return Ok(p);
    }

    /** `load()`: the database, ids and last id are re-read from the file;
        when `int()` raises, the fields keep their values. */
    method Load() returns (err: Option<Error>)
      requires Valid()
      modifies this
      ensures Valid()
      ensures err.None? ==> fresh(db) && experimentIds == Names(ExperimentIds(db.keys))
                            && Ok(lastExperimentId) == LastId(ExperimentIds(db.keys))
      ensures err.None? && file.contents.Some? ==> db.keys == file.contents.value.keys && db.entries == file.contents.value.entries
      ensures err.None? && file.contents.None? ==> db.keys == [] && db.entries == map[]
      ensures err.Some? ==> db == old(db) && experimentIds == old(experimentIds) && lastExperimentId == old(lastExperimentId)
    {
      var d, ids, last := LoadProtocolDb(file);
      if last.Err? {
        return Some(last.error);
      }
      db, experimentIds, lastExperimentId := d, Names(ids), last.value;
      return None;
    }

    /** The key `get` and friends read: `str(last_experiment_id)` when no id
        is given, `str(experiment_id)` otherwise. */
    function KeyFor(id: Option<ExperimentRef>): (k: string)
      reads this
      ensures id.None? ==> ParseInt(k) == Ok(lastExperimentId)
      ensures id.Some? && id.value.Number? ==> ParseInt(k) == Ok(id.value.n)
      ensures id.Some? && id.value.Name? ==> k == id.value.s
    {
      ParseIntRoundTrip(lastExperimentId);
      if id.Some? then (ParseIntRoundTrip(if id.value.Number? then id.value.n else 0); KeyOf(id.value))
      else IntToString(lastExperimentId)
    }

    /** `get(experiment_id)`: the whole record, or None for pickledb's False. */
    function Get(id: Option<ExperimentRef>): (r: Option<Entry>)
      reads this, db
      ensures r.Some? <==> KeyFor(id) in db.entries
      ensures r.Some? ==> r.value == db.entries[KeyFor(id)]
    {
      ProtocolStore.Get(db.entries, KeyFor(id))
    }

    /** `get(experiment_id, var_name)`: one field, KeyError when missing. */
    function GetVar(id: Option<ExperimentRef>, name: string): (r: Result<Value>)
      reads this, db
      ensures r.Ok? <==> KeyFor(id) in db.entries && db.entries[KeyFor(id)].Fields? && name in db.entries[KeyFor(id)].fields
      ensures r.Ok? ==> r.value == db.entries[KeyFor(id)].fields[name]
    {
      DGet(db.entries, KeyFor(id), name)
    }

    /** `status(experiment_id)`. */
    function Status(id: ExperimentRef): (r: Result<Value>)
      reads this, db
      ensures r.Ok? <==> KeyOf(id) in db.entries && db.entries[KeyOf(id)].Fields? && "job_status" in db.entries[KeyOf(id)].fields
      ensures r.Ok? ==> r.value == db.entries[KeyOf(id)].fields["job_status"]
    {
      DGet(db.entries, KeyOf(id), "job_status")
    }

    /** `len(protocol)`. */
    function Len(): nat
      reads this
    {
      |experimentIds|
    }

    /** `save()`: the file holds the database. */
    method Save()
      requires Valid()
      modifies file
      ensures Valid()
      ensures file.contents == Some(Snapshot(db.keys, db.entries))
    {
      db.Dump();
    }

    method SaveIf(save: bool)
      requires Valid()
      modifies file
      ensures Valid()
      ensures save ==> file.contents == Some(Snapshot(db.keys, db.entries))
      ensures !save ==> file.contents == old(file.contents)
    {
      if save {
        Save();
      }
    }

    /** `add(standard, extra, save)`: the assertions first, then the
        experiment is registered; a successful add appends the new id,
        makes it the last one (so `len` grows by exactly one) and dumps the
        database when `save` is set.  An exception from the registration
        leaves the partly written database, the ids and the last id. */
    method Add(standard: Record, extra: Option<Record>, save: bool, env: ExperimentAdd.Environment)
      returns (r: Result<int>)
      requires Valid()
      modifies this, db, file
      ensures Valid() && db == old(db)
      ensures AddCheck(standard, extra, extraKeys).Some? ==>
        && r == Err(AddCheck(standard, extra, extraKeys).value)
        && db.entries == old(db.entries) && db.keys == old(db.keys)
        && experimentIds == old(experimentIds) && lastExperimentId == old(lastExperimentId)
        && file.contents == old(file.contents)
      ensures AddCheck(standard, extra, extraKeys).None? ==>
        var a := ExperimentAdd.Experiment(old(db.entries), old(lastExperimentId), standard, extra, env);
        && db.entries == a.store && r == a.result
        && (r.Ok? ==> r.value == old(lastExperimentId) + 1 && lastExperimentId == r.value
                      && experimentIds == old(experimentIds) + [Number(r.value)] && Len() == old(Len()) + 1)
        && (r.Ok? && save ==> file.contents == Some(Snapshot(db.keys, db.entries)))
        && (r.Err? ==> experimentIds == old(experimentIds) && lastExperimentId == old(lastExperimentId))
        && (r.Err? || !save ==> file.contents == old(file.contents))
    {
      var ok := CheckKeys(StandardKeys, standard);
      if !ok {
        return Err(AssertionError);
      }
      if extra.Some? {
        if extraKeys.None? {
          return Err(TypeError);
        }
        ok := CheckKeys(extraKeys.value, extra.value);
        if !ok {
          return Err(AssertionError);
        }
      }
      r := ExperimentAdd.ProtocolExperiment(db, lastExperimentId, standard, extra, env);
      if r.Err? {
        return;
      }
      ExperimentAdd.AddedRecord(old(db.entries), old(lastExperimentId), standard, extra, env);
      experimentIds := experimentIds + [Number(r.value)];
      lastExperimentId := r.value;
      SaveIf(save);
    }

    /** `abort(experiment_id, save)`: `job_status` becomes "aborted" whatever
        it was; KeyError when the record is missing. */
    method Abort(id: ExperimentRef, save: bool) returns (err: Option<Error>)
      requires Valid()
      modifies db, file
      ensures Valid() && db.keys == old(db.keys)
      ensures var s := WithField(old(db.entries), KeyOf(id), "job_status", Str("aborted"));
        && (s.Ok? ==> err == None && db.entries == s.value)
        && (s.Err? ==> err == Some(s.error) && db.entries == old(db.entries))
      ensures err.None? && save ==> file.contents == Some(Snapshot(db.keys, db.entries))
      ensures err.Some? || !save ==> file.contents == old(file.contents)
    {
      err := db.DAdd(KeyOf(id), "job_status", Str("aborted"));
      if err.None? {
        SaveIf(save);
      }
    }

    /** `delete(experiment_id, save)`: the record goes from the database;
        the ids and the last id stay as they are until the next load. */
    method Delete(id: ExperimentRef, save: bool) returns (err: Option<Error>)
      requires Valid()
      modifies db, file
      ensures Valid()
      ensures KeyOf(id) in old(db.entries) ==>
        err == None && db.entries == old(db.entries) - {KeyOf(id)} && db.keys == Without(old(db.keys), KeyOf(id))
      ensures KeyOf(id) !in old(db.entries) ==>
        err == Some(KeyError) && db.entries == old(db.entries) && db.keys == old(db.keys)
      ensures experimentIds == old(experimentIds) && lastExperimentId == old(lastExperimentId)
      ensures err.None? && save ==> file.contents == Some(Snapshot(db.keys, db.entries))
      ensures err.Some? || !save ==> file.contents == old(file.contents)
    {
      err := db.DRem(KeyOf(id));
      if err.None? {
        SaveIf(save);
      }
    }

    /** The list branch of `update`: one `dadd` per name, in index order. */
    method WriteAll(key: string, names: seq<string>, values: Value) returns (err: Option<Error>)
      requires Valid()
      modifies db
      ensures Valid() && db.keys == old(db.keys)
      ensures var p := Writes(old(db.entries), key, names, values, |names|);
        db.entries == p.value && err == p.error
    {
      ghost var e := db.entries;
      var i := 0;
      while i < |names|
        invariant 0 <= i <= |names|
        invariant Valid() && db.keys == old(db.keys)
        invariant Writes(e, key, names, values, i) == SummarySeries.Partial(db.entries, None)
      {
        var v := Index(values, i);
        if v.Err? {
          WritesStops(e, key, names, values, i + 1, |names|);
          return Some(v.error);
        }
        err := db.DAdd(key, names[i], v.value);
        if err.Some? {
          WritesStops(e, key, names, values, i + 1, |names|);
          return;
        }
        i := i + 1;
      }
      return None;
    }

    /** `update(experiment_id, var_name, var_value, save)`. */
    method Update(id: ExperimentRef, names: UpdateNames, values: Value, save: bool) returns (err: Option<Error>)
      requires Valid()
      modifies db, file
      ensures Valid() && db.keys == old(db.keys)
      ensures var p := Updated(old(db.entries), KeyOf(id), names, values);
        db.entries == p.value && err == p.error
      ensures err.None? && save ==> file.contents == Some(Snapshot(db.keys, db.entries))
      ensures err.Some? || !save ==> file.contents == old(file.contents)
    {
      match names {
        case ManyNames(ns) =>
          err := WriteAll(KeyOf(id), ns, values);
        case OneName(name) =>
          err := db.DAdd(KeyOf(id), name, values);
      }
      if err.None? {
        SaveIf(save);
      }
    }
  
    /** `summary(tail, verbose, return_table, full)`: the frame of the last
        `tail` experiments, or with `return_table` its table; without
        experiments the frame is None and the table has headers only. */
    function Summary(tail: Option<int>, verbose: bool, returnTable: bool, full: bool): (r: Result<SummaryOutput>)
      reads this, db
      ensures r.Ok? ==> (r.value.TableOut? <==> returnTable)
      ensures r.Ok? && !returnTable ==> (r.value.frame.None? <==> |experimentIds| == 0)
      ensures r.Ok? && returnTable ==> (
        && r.value.table.columns == Tables.Columns(full)
        && |r.value.table.rows| == |Frames.Tail(experimentIds, tail)|)
    {
      var frame :- Tables.Summary(db.entries, KeysOf(experimentIds), tail, verbose, full);
      if returnTable then
        var table :- Tables.TableOf(frame, full);
        assert frame.Some? ==> |frame.value| == |Frames.Tail(KeysOf(experimentIds), tail)|;
        Ok(TableOut(table))
      else Ok(FrameOut(frame))
    }

    /** `monitor()`: the panels of `get_monitor_db_data`, then the short
        table of at most the 29 latest experiments, newest first. */
    function Monitor(): (r: Result<MonitorData>)
      reads this, db
      ensures r.Ok? ==> (SummaryPanels.MonitorDbData(db.entries, KeysOf(experimentIds)).Ok?
        && r.value.panels == SummaryPanels.MonitorDbData(db.entries, KeysOf(experimentIds)).value)
      ensures r.Ok? ==> |r.value.table.rows| == (if |experimentIds| < 29 then |experimentIds| else 29)
      ensures r.Ok? ==> r.value.table.columns == Tables.Columns(false)
    {
      var panels :- SummaryPanels.MonitorDbData(db.entries, KeysOf(experimentIds));
      var out :- Summary(Some(29), false, true, false);
      Ok(MonitorData(panels, out.table))
    }
}
}
