/** The key-value store the protocol lives in (a `pickledb` database): string
    keys, each naming either an experiment record or the reserved "summary"
    entry.  `pickledb` itself is not part of this model; its operations are
    stated here as the protocol code uses them:
      - `dcreate(name)` sets the entry to an empty record, replacing one that exists;
      - `dadd(name, (k, v))` sets one field and raises KeyError for a missing entry;
      - `dget(name, k)` reads one field and raises KeyError for a missing entry or field;
      - `drem(name)` deletes the entry and raises KeyError when it is missing;
      - `get(name)` gives the entry, or False when it is missing;
      - `getall()` lists the keys in insertion order;
      - `dump()` writes the whole database to its file;
      - `load(path)` reads the file back, or starts empty when there is none. */
module ProtocolStore {
  import opened Values

  /** The reserved entry of add.py: a time series of cumulative experiment
      counts and one of daily counts.  A field is None until it is written. */
  datatype SummaryData = SummaryData(
    time: Option<seq<string>>,
    totalExp: Option<map<string, seq<int>>>,
    day: Option<seq<string>>,
    dayExp: Option<map<string, seq<int>>>)

  datatype Entry = Fields(fields: Record) | SummaryEntry(data: SummaryData)

  type Store = map<string, Entry>

  const SummaryKey := "summary"

  /** `dget(name, key)`. */
  function DGet(store: Store, name: string, key: string): (r: Result<Value>)
    ensures r.Ok? <==> name in store && store[name].Fields? && key in store[name].fields
    ensures r.Ok? ==> r.value == store[name].fields[key]
    ensures name !in store ==> r == Err(KeyError)
  {
    if name !in store then Err(KeyError)
    else match store[name]
      case Fields(f) => Field(f, key)
      case SummaryEntry(_) => Err(Unmodelled)
  }

  /** `get(name)`: the entry, None standing for the False pickledb returns. */
  function Get(store: Store, name: string): (r: Option<Entry>)
    ensures r.Some? <==> name in store
    ensures r.Some? ==> r.value == store[name]
  {
    if name in store then Some(store[name]) else None
  }

  /** The store after `dadd(name, (key, v))`. */
  function WithField(store: Store, name: string, key: string, v: Value): (r: Result<Store>)
    ensures r.Ok? <==> name in store && store[name].Fields?
    ensures name !in store ==> r == Err(KeyError)
    ensures r.Ok? ==> r.value.Keys == store.Keys
    ensures r.Ok? ==> r.value[name] == Fields(store[name].fields[key := v])
    ensures r.Ok? ==> forall n :: n in store && n != name ==> r.value[n] == store[n]
  {
    if name !in store then Err(KeyError)
    else match store[name]
      case Fields(f) => Ok(store[name := Fields(f[key := v])])
      case SummaryEntry(_) => Err(Unmodelled)
  }

  /** Keys in insertion order, each once, exactly those of the store. */
  ghost predicate Enumerates(keys: seq<string>, store: Store)
  {
    && (forall i, j :: 0 <= i < j < |keys| ==> keys[i] != keys[j])
    && (forall k :: k in keys <==> k in store)
  }

  /** `keys` with `k` taken out. */
  function Without(keys: seq<string>, k: string): (r: seq<string>)
    ensures forall x :: x in r <==> x in keys && x != k
    ensures |r| <= |keys|
    ensures (forall i, j :: 0 <= i < j < |keys| ==> keys[i] != keys[j]) ==>
              forall i, j :: 0 <= i < j < |r| ==> r[i] != r[j]
  {
    if keys == [] then []
    else if keys[0] == k then Without(keys[1..], k)
    else
      var rest := Without(keys[1..], k);
      assert forall i :: 0 <= i < |rest| ==> rest[i] in keys[1..];
      [keys[0]] + rest
  }

  /** What the database file holds after a dump. */
  datatype Snapshot = Snapshot(keys: seq<string>, entries: Store)

  /** The database file on disk: absent until the first dump. */
  class PickleFile {
    var contents: Option<Snapshot>

    constructor (initial: Option<Snapshot>)
      ensures contents == initial
    {
      contents := initial;
    }
  }

  class PickleDb {
    var keys: seq<string>
    var entries: Store
    const file: PickleFile

    ghost predicate Valid()
      reads this
    {
      Enumerates(keys, entries)
    }

    /** `pickledb.load(path, False)`: the dumped contents, or an empty store. */
    constructor Load(f: PickleFile)
      requires f.contents.Some? ==> Enumerates(f.contents.value.keys, f.contents.value.entries)
      ensures Valid() && file == f
      ensures f.contents.Some? ==> keys == f.contents.value.keys && entries == f.contents.value.entries
      ensures f.contents.None? ==> keys == [] && entries == map[]
    {
      file := f;
      if f.contents.Some? {
        keys := f.contents.value.keys;
        entries := f.contents.value.entries;
      } else {
        keys := [];
        entries := map[];
      }
    }

    /** `dcreate(name)`: an empty record, appended to the key order when new. */
    method DCreate(name: string)
      requires Valid()
      modifies this
      ensures Valid()
      ensures entries == old(entries)[name := Fields(map[])]
      ensures keys == if name in old(entries) then old(keys) else old(keys) + [name]
    {
      if name !in entries {
        keys := keys + [name];
      }
      entries := entries[name := Fields(map[])];
    }

    /** `dadd(name, (key, v))`; on an error nothing changes. */
    method DAdd(name: string, key: string, v: Value) returns (err: Option<Error>)
      requires Valid()
      modifies this
      ensures Valid() && keys == old(keys)
      ensures WithField(old(entries), name, key, v).Ok? ==> err == None && entries == WithField(old(entries), name, key, v).value
      ensures WithField(old(entries), name, key, v).Err? ==> err == Some(WithField(old(entries), name, key, v).error) && entries == old(entries)
    {
      var r := WithField(entries, name, key, v);
      if r.Ok? {
        entries := r.value;
        err := None;
      } else {
        err := Some(r.error);
      }
    }

    /** Stores a summary entry under "summary" (the add.py writes to it). */
    method PutSummary(data: SummaryData)
      requires Valid()
      modifies this
      ensures Valid()
      ensures entries == old(entries)[SummaryKey := SummaryEntry(data)]
      ensures keys == if SummaryKey in old(entries) then old(keys) else old(keys) + [SummaryKey]
    {
      if SummaryKey !in entries {
        keys := keys + [SummaryKey];
      }
      entries := entries[SummaryKey := SummaryEntry(data)];
    }

    /** `drem(name)`. */
    method DRem(name: string) returns (err: Option<Error>)
      requires Valid()
      modifies this
      ensures Valid()
      ensures name in old(entries) ==> err == None && entries == old(entries) - {name} && keys == Without(old(keys), name)
      ensures name !in old(entries) ==> err == Some(KeyError) && entries == old(entries) && keys == old(keys)
    {
      if name in entries {
        entries := entries - {name};
        keys := Without(keys, name);
        err := None;
      } else {
        err := Some(KeyError);
      }
    }

    /** `dump()`: the file now holds exactly the store. */
    method Dump()
      requires Valid()
      modifies file
      ensures file.contents == Some(Snapshot(keys, entries))
    {
      file.contents := Some(Snapshot(keys, entries));
    }
  }
}
