/** `protocol_experiment` (protocol/add.py): registers a new experiment under
    the next integer id.  The summary entry is updated first; then the record
    is created and filled field by field: the standard and extra data, the
    git hash, the loaded configurations, the bookkeeping flags and the time
    estimate.  An exception part-way leaves the fields written so far in the
    store, which the specification `Experiment` reproduces. */
module ExperimentAdd {
  import opened Values
  import opened Text
  import opened ProtocolStore
  import opened Duration
  import SummarySeries

  /** What the function reads from outside the database: the clock, the git
      repository, the md5 hash, the configuration files and `timedelta`. */
  datatype Environment = Environment(
    summaryTime: string,       // "%m/%d/%y %H:%M" read by add_experiment_summary
    summaryDay: string,        // "%m/%d/%y" read by add_experiment_summary
    gitHash: Option<string>,   // head commit, None when git or a repository is missing
    experimentHash: string,    // md5 of the current time and the config file names
    startTime: string,         // "%m/%d/%y %H:%M" read for the start time
    loadJson: string -> Result<Value>,
    loadYaml: string -> Result<Value>,
    stopTime: (string, Carried) -> string)  // start time plus the duration, formatted

  /** The store after the call and what it returns (the new id) or raises. */
  datatype Added = Added(store: Store, result: Result<int>)

  /** `str(last_experiment_id + 1)`. */
  function NewId(last: int): (id: string)
    ensures ParseInt(id) == Ok(last + 1)
    ensures id != SummaryKey
  {
    ParseIntRoundTrip(last + 1);
    var id := IntToString(last + 1);
    assert id[|id| - 1] != 'y' by {
      var digits := NatToString(if last + 1 < 0 then -(last + 1) else last + 1);
      assert id[|id| - 1] == digits[|digits| - 1];
      assert IsDigit(digits[|digits| - 1]);
    }
    id
  }

  // ---- os.path.splitext ----

  /** The position of the last `c` in `s`. */
  function LastIndex(s: string, c: char): (r: Option<nat>)
    ensures r.Some? ==> r.value < |s| && s[r.value] == c && forall j :: r.value < j < |s| ==> s[j] != c
    ensures r.None? ==> forall j :: 0 <= j < |s| ==> s[j] != c
  {
    if s == [] then None
    else if s[|s| - 1] == c then Some(|s| - 1)
    else LastIndex(s[..|s| - 1], c)
  }

  /** Length of the run of dots that starts `s`. */
  function LeadingDots(s: string): (n: nat)
    ensures n <= |s|
    ensures forall i :: 0 <= i < n ==> s[i] == '.'
    ensures n < |s| ==> s[n] != '.'
  {
    if s == [] || s[0] != '.' then 0 else 1 + LeadingDots(s[1..])
  }

  /** An extension: one dot, then text with neither a dot nor a slash. */
  predicate DotSuffix(ext: string)
  {
    |ext| >= 1 && ext[0] == '.' && forall j :: 0 < j < |ext| ==> ext[j] != '.' && ext[j] != '/'
  }

  /** The extension `os.path.splitext` (POSIX) splits off: from the last dot
      of the file name on, unless only dots precede that dot in the name. */
  function Extension(path: string): (r: string)
    ensures |r| <= |path| && r == path[|path| - |r|..]
    ensures r == "" || DotSuffix(r)
  {
    match LastIndex(path, '.')
    case None => ""
    case Some(dot) =>
      var start := match LastIndex(path, '/') case None => 0 case Some(slash) => slash + 1;
      if start + LeadingDots(path[start..]) < dot then path[dot..]
      else ""
  }

  lemma {:induction false} LastIndexFree(a: string, b: string, c: char)
    requires forall j :: 0 <= j < |b| ==> b[j] != c
    ensures LastIndex(a + b, c) == LastIndex(a, c)
    decreases |b|
  {
    if b != [] {
      var ab := a + b;
      assert ab[|ab| - 1] == b[|b| - 1];
      assert ab[..|ab| - 1] == a + b[..|b| - 1];
      LastIndexFree(a, b[..|b| - 1], c);
    } else {
      assert a + b == a;
    }
  }

  lemma LastIndexAt(a: string, b: string, c: char)
    requires |b| >= 1 && b[0] == c && forall j :: 0 < j < |b| ==> b[j] != c
    ensures LastIndex(a + b, c) == Some(|a|)
  {
    var a' := a + [c];
    assert a + b == a' + b[1..];
    assert LastIndex(a', c) == Some(|a|);
    LastIndexFree(a', b[1..], c);
  }

  /** A file name ending in an ordinary character, followed by an extension,
      has that extension: "configs/base.json" gives ".json". */
  lemma ExtensionOfStem(stem: string, ext: string)
    requires stem != "" && stem[|stem| - 1] != '.' && stem[|stem| - 1] != '/'
    requires DotSuffix(ext)
    ensures Extension(stem + ext) == ext
  {
    var path := stem + ext;
    LastIndexAt(stem, ext, '.');
    LastIndexFree(stem, ext, '/');
    var start := match LastIndex(stem, '/') case None => 0 case Some(slash) => slash + 1;
    assert start <= |stem| - 1;
    assert path[start..][|stem| - 1 - start] == stem[|stem| - 1];
    assert path[|stem|..] == ext;
  }

  /** A name made of dots and one more dot-suffix, like ".json", has none. */
  lemma HiddenFileHasNoExtension(ext: string)
    requires DotSuffix(ext)
    ensures Extension(ext) == ""
  {
    LastIndexAt("", ext, '.');
    assert "" + ext == ext;
  }

  // ---- The specification of protocol_experiment ----

  /** The standard fields, then the extra ones (later writes win). */
  function Merged(standard: Record, extra: Option<Record>): Record
  {
    if extra.Some? then standard + extra.value else standard
  }

  function GitHash(env: Environment): string
  {
    if env.gitHash.Some? then env.gitHash.value else "no-git-repo"
  }

  /** The record after the data and the git hash are written. */
  function Initial(standard: Record, extra: Option<Record>, env: Environment): Record
  {
    Merged(standard, extra)["git_hash" := Str(GitHash(env))]
  }

  /** Iterating a value with `for x in v`. */
  function Items(v: Value): Result<seq<Value>>
  {
    match v
    case List(items) => Ok(items)
    case Str(s) => Ok(seq(|s|, i requires 0 <= i < |s| => Str([s[i]])))
    case Dict(_) => Err(Unmodelled)
    case _ => Err(TypeError)
  }

  /** The configuration paths: a single file name, the list of names when
      `base_train_config` is a list, and none otherwise. */
  function ConfigPaths(standard: Record): Result<seq<Value>>
  {
    var name :- Field(standard, "config_fname");
    if name.Str? then Ok([name])
    else
      var base :- Field(standard, "base_train_config");
      if base.List? then Items(name) else Ok([])
  }

  /** One configuration: loaded from JSON or YAML by extension, `{}` otherwise. */
  function LoadConfig(path: Value, env: Environment): Result<Value>
  {
    if !path.Str? then Err(TypeError)
    else if Extension(path.s) == ".json" then env.loadJson(path.s)
    else if Extension(path.s) == ".yaml" then env.loadYaml(path.s)
    else Ok(Dict(map[]))
  }

  /** All configurations in order; the first failing load raises. */
  function LoadConfigs(paths: seq<Value>, env: Environment): (r: Result<seq<Value>>)
    ensures r.Ok? ==> |r.value| == |paths|
    ensures r.Ok? ==> forall i :: 0 <= i < |paths| ==> LoadConfig(paths[i], env) == Ok(r.value[i])
  {
    if paths == [] then Ok([])
    else
      var before :- LoadConfigs(paths[..|paths| - 1], env);
      var last :- LoadConfig(paths[|paths| - 1], env);
      assert forall i :: 0 <= i < |paths| - 1 ==> paths[..|paths| - 1][i] == paths[i];
      Ok(before + [last])
  }

  /** The bookkeeping fields written after the configurations. */
  function Flagged(rec: Record, configs: seq<Value>, env: Environment): Record
  {
    rec["loaded_config" := List(configs)]["e-hash" := Str(env.experimentHash)]
       ["retrieved_results" := Bool(false)]["stored_in_cloud" := Bool(false)]
       ["report_generated" := Bool(false)]["job_status" := Str("running")]
       ["completed_jobs" := Int(0)]
  }

  /** `estimate_experiment_duration(start, time_per_job, num_job_batches)`:
      the duration text and the stop time. */
  function Estimate(standard: Record, env: Environment): Result<(string, string)>
  {
    var perJob :- Field(standard, "time_per_job");
    var batches :- Field(standard, "num_job_batches");
    var c :- ParseSchedule(perJob, batches);
    Ok((DurationText(c, false), env.stopTime(env.startTime, c)))
  }

  function Timed(rec: Record, start: string, duration: string, stop: string): Record
  {
    rec["start_time" := Str(start)]["duration" := Str(duration)]["stop_time" := Str(stop)]
  }

  /** The configurations the record stores, or the exception of the first
      path or load that fails. */
  function Loaded(standard: Record, env: Environment): Result<seq<Value>>
  {
    var paths :- ConfigPaths(standard);
    LoadConfigs(paths, env)
  }

  /** The flags and the time estimate written into record `id`, which holds
      `rec`; the estimate can raise after the flags are written. */
  function Finish(store: Store, id: string, rec: Record, configs: seq<Value>, standard: Record, env: Environment)
    : SummarySeries.Partial<Store>
  {
    var flagged := Flagged(rec, configs, env);
    match Estimate(standard, env)
    case Err(e) => SummarySeries.Partial(store[id := Fields(flagged)], Some(e))
    case Ok((duration, stop)) => SummarySeries.Partial(store[id := Fields(Timed(flagged, env.startTime, duration, stop))], None)
  }

  /** Everything after the summary update: the record `id` is created and
      filled, up to the first exception. */
  function Fill(store: Store, last: int, standard: Record, extra: Option<Record>, env: Environment): (a: Added)
  {
    var id := NewId(last);
    var rec := Initial(standard, extra, env);
    match Loaded(standard, env)
    case Err(e) => Added(store[id := Fields(rec)], Err(e))
    case Ok(configs) =>
      var p := Finish(store, id, rec, configs, standard, env);
      Added(p.value, if p.error.Some? then Err(p.error.value) else Ok(last + 1))
  }

  /** The whole call on a store. */
  function Experiment(store: Store, last: int, standard: Record, extra: Option<Record>, env: Environment): Added
  {
    if "experiment_type" !in standard then Added(store, Err(KeyError))
    else
      var s := SummarySeries.AddSummary(store, standard["experiment_type"], env.summaryTime, env.summaryDay);
      if s.error.Some? then Added(s.value, Err(s.error.value))
      else Fill(s.value, last, standard, extra, env)
  }

  // ---- What the specification promises ----

  /** The names of the fields the function writes itself. */
  const Written: set<string> := {"git_hash", "loaded_config", "e-hash", "retrieved_results",
    "stored_in_cloud", "report_generated", "job_status", "completed_jobs", "start_time",
    "duration", "stop_time"}

  /** The record a successful add leaves: every standard and extra field
      (extra winning), the written fields, and nothing else; the bookkeeping
      starts as not retrieved, not stored, no report, running, no jobs
      completed. */
  lemma {:induction false} FinalRecord(standard: Record, extra: Option<Record>, configs: seq<Value>, env: Environment,
                                       duration: string, stop: string)
    ensures var r := Timed(Flagged(Initial(standard, extra, env), configs, env), env.startTime, duration, stop);
      && r.Keys == Merged(standard, extra).Keys + Written
      && (forall k :: k in standard && k !in Written && (extra.None? || k !in extra.value) ==> r[k] == standard[k])
      && (forall k :: extra.Some? && k in extra.value && k !in Written ==> r[k] == extra.value[k])
      && r["retrieved_results"] == Bool(false) && r["stored_in_cloud"] == Bool(false)
      && r["report_generated"] == Bool(false) && r["job_status"] == Str("running")
      && r["completed_jobs"] == Int(0) && r["git_hash"] == Str(GitHash(env))
      && r["loaded_config"] == List(configs) && r["e-hash"] == Str(env.experimentHash)
      && r["start_time"] == Str(env.startTime) && r["duration"] == Str(duration) && r["stop_time"] == Str(stop)
  {
  }

  /** What a successful call consists of: the summary update went through,
      the configurations loaded, the estimate parsed, and the new record is
      the final one built from them. */
  lemma {:induction false} AddedParts(store: Store, last: int, standard: Record, extra: Option<Record>, env: Environment)
    requires Experiment(store, last, standard, extra, env).result.Ok?
    ensures "experiment_type" in standard
    ensures var s := SummarySeries.AddSummary(store, standard["experiment_type"], env.summaryTime, env.summaryDay);
      var configs := Loaded(standard, env);
      var e := Estimate(standard, env);
      && s.error.None? && configs.Ok? && e.Ok?
      && Experiment(store, last, standard, extra, env) ==
         Added(s.value[NewId(last) := Fields(Timed(Flagged(Initial(standard, extra, env),
                 configs.value, env), env.startTime, e.value.0, e.value.1))], Ok(last + 1))
  {
    var s := SummarySeries.AddSummary(store, standard["experiment_type"], env.summaryTime, env.summaryDay);
    assert Experiment(store, last, standard, extra, env) == Fill(s.value, last, standard, extra, env);
  }

  /** A successful add returns the next id, and `int(str(id))` is that id. */
  lemma AddedRecord(store: Store, last: int, standard: Record, extra: Option<Record>, env: Environment)
    requires Experiment(store, last, standard, extra, env).result.Ok?
    ensures var a := Experiment(store, last, standard, extra, env);
      && a.result.value == last + 1 && ParseInt(NewId(last)) == Ok(a.result.value)
      && NewId(last) in a.store && a.store[NewId(last)].Fields?
      && var r := a.store[NewId(last)].fields;
         && r.Keys == Merged(standard, extra).Keys + Written
         && (forall k :: k in standard && k !in Written && (extra.None? || k !in extra.value) ==> r[k] == standard[k])
         && (forall k :: extra.Some? && k in extra.value && k !in Written ==> r[k] == extra.value[k])
         && r["retrieved_results"] == Bool(false) && r["stored_in_cloud"] == Bool(false)
         && r["report_generated"] == Bool(false) && r["job_status"] == Str("running")
         && r["completed_jobs"] == Int(0) && r["git_hash"] == Str(GitHash(env))
         && r["start_time"] == Str(env.startTime)
  {
    AddedParts(store, last, standard, extra, env);
    var e := Estimate(standard, env);
    FinalRecord(standard, extra, Loaded(standard, env).value, env, e.value.0, e.value.1);
  }

  /** Whatever happens, every experiment other than the new one is left as it
      was; only the summary entry and the new record change. */
  lemma OthersUnchanged(store: Store, last: int, standard: Record, extra: Option<Record>, env: Environment)
    ensures var a := Experiment(store, last, standard, extra, env);
      forall n :: n in store && n != SummaryKey && n != NewId(last) ==>
        n in a.store && a.store[n] == store[n]
  {
    if "experiment_type" in standard {
      var s := SummarySeries.AddSummary(store, standard["experiment_type"], env.summaryTime, env.summaryDay);
      SummaryOnly(store, standard["experiment_type"], env.summaryTime, env.summaryDay);
      if s.error.None? {
        FillOnly(s.value, last, standard, extra, env);
      }
    }
  }

  lemma SummaryOnly(store: Store, tv: Value, time: string, day: string)
    ensures var s := SummarySeries.AddSummary(store, tv, time, day).value;
      forall n :: n in store && n != SummaryKey ==> n in s && s[n] == store[n]
  {
  }

  lemma FillOnly(store: Store, last: int, standard: Record, extra: Option<Record>, env: Environment)
    ensures var a := Fill(store, last, standard, extra, env).store;
      forall n :: n in store && n != NewId(last) ==> n in a && a[n] == store[n]
  {
    var id := NewId(last);
    match Loaded(standard, env)
    case Err(e) =>
    case Ok(configs) =>
      var p := Finish(store, id, Initial(standard, extra, env), configs, standard, env);
      assert forall n :: n in store && n != id ==> n in p.value && p.value[n] == store[n];
  }

  /** A successful add needs the four fields it reads directly. */
  lemma AddedNeedsFields(store: Store, last: int, standard: Record, extra: Option<Record>, env: Environment)
    requires Experiment(store, last, standard, extra, env).result.Ok?
    ensures "experiment_type" in standard && "config_fname" in standard
    ensures "time_per_job" in standard && "num_job_batches" in standard
  {
    AddedParts(store, last, standard, extra, env);
  }

  /** The stored duration is the time per job times the number of batches,
      carried into days, hours < 24 and minutes < 60, and it reads back. */
  lemma AddedDuration(store: Store, last: int, standard: Record, extra: Option<Record>, env: Environment)
    requires Experiment(store, last, standard, extra, env).result.Ok?
    ensures "time_per_job" in standard && "num_job_batches" in standard
    ensures var c := ParseSchedule(standard["time_per_job"], standard["num_job_batches"]);
      var rec := Experiment(store, last, standard, extra, env).store[NewId(last)].fields;
      && c.Ok?
      && rec["duration"] == Str(DurationText(c.value, false))
      && rec["stop_time"] == Str(env.stopTime(env.startTime, c.value))
      && var parts := SplitOn(DurationText(c.value, false), ':');
         |parts| == 3 && ParseInt(parts[0]) == Ok(c.value.days)
         && ParseInt(parts[1]) == Ok(c.value.hours) && ParseInt(parts[2]) == Ok(c.value.minutes)
  {
    AddedParts(store, last, standard, extra, env);
    var e := Estimate(standard, env);
    FinalRecord(standard, extra, Loaded(standard, env).value, env, e.value.0, e.value.1);
    var c := ParseSchedule(standard["time_per_job"], standard["num_job_batches"]);
    DurationTextRoundTrip(c.value, false);
  }

  /** A missing `experiment_type` raises KeyError before anything changes. */
  lemma NoTypeNoChange(store: Store, last: int, standard: Record, extra: Option<Record>, env: Environment)
    requires "experiment_type" !in standard
    ensures Experiment(store, last, standard, extra, env) == Added(store, Err(KeyError))
  {
  }

  // ---- The imperative steps ----

  /** The fields of `m` whose names are in `ks`. */
  function Restrict(m: Record, ks: set<string>): (r: Record)
    ensures r.Keys == m.Keys * ks
    ensures forall k :: k in r ==> r[k] == m[k]
  {
    map k | k in m && k in ks :: m[k]
  }

  /** `dadd(id, (key, v))` on an existing record, which cannot fail. */
  function SetField(entries: Store, id: string, key: string, v: Value): (r: Store)
    requires id in entries && entries[id].Fields?
    ensures id in r && r[id].Fields?
  {
    entries[id := Fields(entries[id].fields[key := v])]
  }

  method Put(db: PickleDb, id: string, key: string, v: Value)
    requires db.Valid() && id in db.entries && db.entries[id].Fields?
    modifies db
    ensures db.Valid() && db.keys == old(db.keys)
    ensures db.entries == SetField(old(db.entries), id, key, v)
  {
    var err := db.DAdd(id, key, v);
  }

  /** The seven writes of lines 58-76 make the flagged record. */
  lemma FlagWrites(e: Store, id: string, configs: seq<Value>, env: Environment)
    requires id in e && e[id].Fields?
    ensures SetField(SetField(SetField(SetField(SetField(SetField(SetField(e,
              id, "loaded_config", List(configs)), id, "e-hash", Str(env.experimentHash)),
              id, "retrieved_results", Bool(false)), id, "stored_in_cloud", Bool(false)),
              id, "report_generated", Bool(false)), id, "job_status", Str("running")),
              id, "completed_jobs", Int(0))
            == e[id := Fields(Flagged(e[id].fields, configs, env))]
  {
    var r0 := e[id].fields;
    assert e[id := Fields(r0)] == e;
    var r1 := r0["loaded_config" := List(configs)];
    var r2 := r1["e-hash" := Str(env.experimentHash)];
    var r3 := r2["retrieved_results" := Bool(false)];
    var r4 := r3["stored_in_cloud" := Bool(false)];
    var r5 := r4["report_generated" := Bool(false)];
    var r6 := r5["job_status" := Str("running")];
    SetFieldOver(e, id, r0, "loaded_config", List(configs));
    SetFieldOver(e, id, r1, "e-hash", Str(env.experimentHash));
    SetFieldOver(e, id, r2, "retrieved_results", Bool(false));
    SetFieldOver(e, id, r3, "stored_in_cloud", Bool(false));
    SetFieldOver(e, id, r4, "report_generated", Bool(false));
    SetFieldOver(e, id, r5, "job_status", Str("running"));
    SetFieldOver(e, id, r6, "completed_jobs", Int(0));
  }

  lemma SetFieldOver(e: Store, id: string, rec: Record, k: string, v: Value)
    ensures SetField(e[id := Fields(rec)], id, k, v) == e[id := Fields(rec[k := v])]
  {
  }

  lemma PutStep(e: Store, id: string, base: Record, done: Record, k: string, v: Value)
    ensures SetField(e[id := Fields(base + done)], id, k, v) == e[id := Fields(base + done[k := v])]
  {
    assert (base + done)[k := v] == base + done[k := v];
  }

  lemma RestrictStep(fields: Record, ks: set<string>, k: string)
    requires k in fields
    ensures Restrict(fields, ks + {k}) == Restrict(fields, ks)[k := fields[k]]
  {
  }

  /** `for k, v in fields.items(): db.dadd(id, (k, v))`. */
  method PutAll(db: PickleDb, id: string, fields: Record)
    requires db.Valid() && id in db.entries && db.entries[id].Fields?
    modifies db
    ensures db.Valid() && db.keys == old(db.keys)
    ensures db.entries == old(db.entries)[id := Fields(old(db.entries)[id].fields + fields)]
  {
    var todo := fields.Keys;
    ghost var e := db.entries;
    ghost var base := e[id].fields;
    assert base + Restrict(fields, {}) == base;
    assert e[id := Fields(base)] == e;
    while todo != {}
      invariant db.Valid() && db.keys == old(db.keys)
      invariant todo <= fields.Keys
      invariant db.entries == e[id := Fields(base + Restrict(fields, fields.Keys - todo))]
      decreases todo
    {
      var k :| k in todo;
      PutStep(e, id, base, Restrict(fields, fields.Keys - todo), k, fields[k]);
      RestrictStep(fields, fields.Keys - todo, k);
      Put(db, id, k, fields[k]);
      assert fields.Keys - (todo - {k}) == (fields.Keys - todo) + {k};
      todo := todo - {k};
    }
    assert fields.Keys - todo == fields.Keys;
    assert Restrict(fields, fields.Keys) == fields;
  }

  lemma LoadConfigsStops(paths: seq<Value>, j: nat, env: Environment)
    requires j <= |paths| && LoadConfigs(paths[..j], env).Err?
    ensures LoadConfigs(paths, env) == LoadConfigs(paths[..j], env)
    decreases |paths| - j
  {
    if j < |paths| {
      assert paths[..j + 1][..j] == paths[..j];
      LoadConfigsStops(paths, j + 1, env);
    } else {
      assert paths[..j] == paths;
    }
  }

  /** The loop of add.py lines 47-56. */
  method LoadAll(paths: seq<Value>, env: Environment) returns (r: Result<seq<Value>>)
    ensures r == LoadConfigs(paths, env)
  {
    var loaded: seq<Value> := [];
    for i := 0 to |paths|
      invariant LoadConfigs(paths[..i], env) == Ok(loaded)
    {
      assert paths[..i + 1][..i] == paths[..i];
      var config := LoadConfig(paths[i], env);
      if config.Err? {
        LoadConfigsStops(paths, i + 1, env);
        return Err(config.error);
      }
      loaded := loaded + [config.value];
    }
    assert paths[..|paths|] == paths;
    return Ok(loaded);
  }

  /** Lines 69-76: the hash and the bookkeeping fields. */
  method PutFlags(db: PickleDb, id: string, configs: seq<Value>, env: Environment)
    requires db.Valid() && id in db.entries && db.entries[id].Fields?
    modifies db
    ensures db.Valid() && db.keys == old(db.keys)
    ensures db.entries == old(db.entries)[id := Fields(Flagged(old(db.entries)[id].fields, configs, env))]
  {
    FlagWrites(db.entries, id, configs, env);
    Put(db, id, "loaded_config", List(configs));
    Put(db, id, "e-hash", Str(env.experimentHash));
    Put(db, id, "retrieved_results", Bool(false));
    Put(db, id, "stored_in_cloud", Bool(false));
    Put(db, id, "report_generated", Bool(false));
    Put(db, id, "job_status", Str("running"));
    Put(db, id, "completed_jobs", Int(0));
  }

  /** Creating the record, writing the standard and extra fields and the git
      hash make the initial record. */
  lemma InitialWrites(e: Store, id: string, standard: Record, extra: Option<Record>, env: Environment)
    ensures var e1 := e[id := Fields(map[])];
      var e2 := e1[id := Fields(e1[id].fields + standard)];
      var e3 := if extra.Some? then e2[id := Fields(e2[id].fields + extra.value)] else e2;
      SetField(e3, id, "git_hash", Str(GitHash(env))) == e[id := Fields(Initial(standard, extra, env))]
  {
    assert map[] + standard == standard;
  }

  /** Lines 18-37: the new record with the data and the git hash. */
  method PutInitial(db: PickleDb, id: string, standard: Record, extra: Option<Record>, env: Environment)
    requires db.Valid()
    modifies db
    ensures db.Valid()
    ensures db.entries == old(db.entries)[id := Fields(Initial(standard, extra, env))]
    ensures db.keys == if id in old(db.entries) then old(db.keys) else old(db.keys) + [id]
  {
    InitialWrites(db.entries, id, standard, extra, env);
    db.DCreate(id);
    PutAll(db, id, standard);
    if extra.Some? {
      PutAll(db, id, extra.value);
    }
    Put(db, id, "git_hash", Str(GitHash(env)));
  }

  /** The three writes of lines 81-83 make the timed record. */
  lemma TimeWrites(e: Store, id: string, start: string, duration: string, stop: string)
    requires id in e && e[id].Fields?
    ensures SetField(SetField(SetField(e, id, "start_time", Str(start)), id, "duration", Str(duration)),
                     id, "stop_time", Str(stop))
            == e[id := Fields(Timed(e[id].fields, start, duration, stop))]
  {
  }

  /** `Loaded`: the paths, then the loop of lines 47-56. */
  method LoadAllConfigs(standard: Record, env: Environment) returns (r: Result<seq<Value>>)
    ensures r == Loaded(standard, env)
  {
    var paths := ConfigPaths(standard);
    if paths.Err? {
      return Err(paths.error);
    }
    r := LoadAll(paths.value, env);
  }

  /** Lines 58-83: the bookkeeping fields, then the time estimate. */
  method PutFlagsAndTimes(db: PickleDb, id: string, standard: Record, configs: seq<Value>, env: Environment)
    returns (err: Option<Error>)
    requires db.Valid() && id in db.entries && db.entries[id].Fields?
    modifies db
    ensures db.Valid() && db.keys == old(db.keys)
    ensures var p := Finish(old(db.entries), id, old(db.entries)[id].fields, configs, standard, env);
      db.entries == p.value && err == p.error
  {
    ghost var e := db.entries;
    ghost var flagged := Flagged(e[id].fields, configs, env);
    PutFlags(db, id, configs, env);
    var estimate := Estimate(standard, env);
    if estimate.Err? {
      return Some(estimate.error);
    }
    var (duration, stop) := estimate.value;
    PutTimes(db, id, env.startTime, duration, stop);
    assert e[id := Fields(flagged)][id := Fields(Timed(flagged, env.startTime, duration, stop))]
        == e[id := Fields(Timed(flagged, env.startTime, duration, stop))];
    return None;
  }

  /** Lines 81-83. */
  method PutTimes(db: PickleDb, id: string, start: string, duration: string, stop: string)
    requires db.Valid() && id in db.entries && db.entries[id].Fields?
    modifies db
    ensures db.Valid() && db.keys == old(db.keys)
    ensures db.entries == old(db.entries)[id := Fields(Timed(old(db.entries)[id].fields, start, duration, stop))]
  {
    TimeWrites(db.entries, id, start, duration, stop);
    Put(db, id, "start_time", Str(start));
    Put(db, id, "duration", Str(duration));
    Put(db, id, "stop_time", Str(stop));
  }

  lemma FinishOverwrites(e: Store, id: string, rec: Record, configs: seq<Value>, standard: Record, env: Environment)
    ensures Finish(e[id := Fields(rec)], id, rec, configs, standard, env) == Finish(e, id, rec, configs, standard, env)
  {
    var flagged := Flagged(rec, configs, env);
    assert e[id := Fields(rec)][id := Fields(flagged)] == e[id := Fields(flagged)];
    match Estimate(standard, env)
    case Err(_) =>
    case Ok((duration, stop)) =>
      var done := Fields(Timed(flagged, env.startTime, duration, stop));
      assert e[id := Fields(rec)][id := done] == e[id := done];
  }

  /** Lines 18-84: everything after the summary update. */
  method FillRecord(db: PickleDb, last: int, standard: Record, extra: Option<Record>, env: Environment)
    returns (r: Result<int>)
    requires db.Valid()
    modifies db
    ensures db.Valid()
    ensures db.entries == Fill(old(db.entries), last, standard, extra, env).store
    ensures r == Fill(old(db.entries), last, standard, extra, env).result
  {
    var id := NewId(last);
    PutInitial(db, id, standard, extra, env);
    var loaded := LoadAllConfigs(standard, env);
    if loaded.Err? {
      return Err(loaded.error);
    }
    ghost var rec := Initial(standard, extra, env);
    ghost var e := old(db.entries);
    assert Finish(db.entries, id, rec, loaded.value, standard, env) == Finish(e, id, rec, loaded.value, standard, env) by {
      FinishOverwrites(e, id, rec, loaded.value, standard, env);
    }
    var err := PutFlagsAndTimes(db, id, standard, loaded.value, env);
    if err.Some? {
      return Err(err.value);
    }
    return Ok(last + 1);
  }

  /** `protocol_experiment(db, last_experiment_id, standard, extra)`. */
  method ProtocolExperiment(db: PickleDb, last: int, standard: Record, extra: Option<Record>, env: Environment)
    returns (r: Result<int>)
    requires db.Valid()
    modifies db
    ensures db.Valid()
    ensures db.entries == Experiment(old(db.entries), last, standard, extra, env).store
    ensures r == Experiment(old(db.entries), last, standard, extra, env).result
  {
    if "experiment_type" !in standard {
      return Err(KeyError);
    }
    var err := SummarySeries.AddExperimentSummary(db, standard["experiment_type"], env.summaryTime, env.summaryDay);
    if err.Some? {
      return Err(err.value);
    }
    r := FillRecord(db, last, standard, extra, env);
  }
}
