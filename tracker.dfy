/** utils/tracker.py: the utilisation tracker that keeps its history in a
    numpy file between runs. */
module FileTracker {
  import opened Values
  import opened Utilisation

  /** One row of the stacked array: memory, cores, date, hour. */
  datatype StoredRow = StoredRow(mem: real, cpu: real, date: Reading, hour: Reading)

  /** The `.npy` file: absent (or unreadable), or the stacked rows. */
  class TrackerFile {
    var rows: Option<seq<StoredRow>>

    constructor (initial: Option<seq<StoredRow>>)
      ensures rows == initial
    {
      rows := initial;
    }
  }

  /** `np.stack([mem, cpu, dates, hours], axis=1)` of aligned lists. */
  function Stack(h: History): (r: seq<StoredRow>)
    requires Aligned(h)
    ensures |r| == |h.memUtil|
  {
    seq(|h.memUtil|, i requires 0 <= i < |h.memUtil| => StoredRow(h.memUtil[i], h.cpuUtil[i], h.timesDate[i], h.timesHour[i]))
  }

  /** The four columns `data[:, k].tolist()` of the stored rows. */
  function Columns(rows: seq<StoredRow>): (h: History)
    ensures Aligned(h) && |h.memUtil| == |rows|
  {
    History(seq(|rows|, i requires 0 <= i < |rows| => rows[i].date),
            seq(|rows|, i requires 0 <= i < |rows| => rows[i].hour),
            seq(|rows|, i requires 0 <= i < |rows| => rows[i].mem),
            seq(|rows|, i requires 0 <= i < |rows| => rows[i].cpu))
  }

  /** `load()`: the columns of the file, or, when loading raises, four
      empty lists. */
  function Loaded(stored: Option<seq<StoredRow>>): (h: History)
    ensures Aligned(h)
    ensures stored.None? ==> h == Empty
  {
    if stored.Some? then Columns(stored.value) else Empty
  }

  /** A saved history loads back unchanged. */
  lemma SaveThenLoad(h: History)
    requires Aligned(h)
    ensures Loaded(Some(Stack(h))) == h
  {
    var back := Columns(Stack(h));
    assert back.timesDate == h.timesDate;
    assert back.timesHour == h.timesHour;
    assert back.memUtil == h.memUtil;
    assert back.cpuUtil == h.cpuUtil;
  }

  /** Below the limit every complete sample lengthens each list by one, so
      lists that no longer line up never line up again and every later
      save raises. */
  lemma MisalignmentPersists(h: History, util: map<string, Reading>, limit: nat)
    requires !Aligned(h)
    requires |h.timesDate| < limit && |h.timesHour| < limit && |h.memUtil| < limit && |h.cpuUtil| < limit
    requires Sample(h, util, limit).error.None?
    ensures !Aligned(Sample(h, util, limit).history)
  {
  }

  class Tracker {
    var memUtil: seq<real>
    var cpuUtil: seq<real>
    var timesDate: seq<Reading>
    var timesHour: seq<Reading>
    const limit: nat
    const file: TrackerFile

    function Contents(): History
      reads this
    {
      History(timesDate, timesHour, memUtil, cpuUtil)
    }

    /** `Tracker(fname)`: a limit of 100000 samples and the stored history. */
    constructor (f: TrackerFile)
      ensures file == f && limit == 100000
      ensures Contents() == Loaded(f.rows)
    {
      file := f;
      limit := 100000;
      new;
      Load();
    }

    /** `load()`. */
    method Load()
      modifies this
      ensures Contents() == Loaded(file.rows)
    {
      var h := Loaded(file.rows);
      memUtil, cpuUtil, timesDate, timesHour := h.memUtil, h.cpuUtil, h.timesDate, h.timesHour;
    }

    /** `save()`: lists of different lengths cannot be stacked (ValueError). */
    method Save() returns (err: Option<Error>)
      modifies file
      ensures Aligned(Contents()) ==> err.None? && file.rows == Some(Stack(Contents()))
      ensures !Aligned(Contents()) ==> err == Some(ValueError) && file.rows == old(file.rows)
    {
      if !Aligned(Contents()) {
        return Some(ValueError);
      }
      file.rows := Some(Stack(Contents()));
      return None;
    }

    /** `moving_window()`: every list cut to its first `limit` entries. */
    method MovingWindow()
      modifies this
      ensures Contents() == Windowed(old(Contents()), limit)
    {
      timesDate := WindowAsWritten(timesDate, limit);
      timesHour := WindowAsWritten(timesHour, limit);
      memUtil := WindowAsWritten(memUtil, limit);
      cpuUtil := WindowAsWritten(cpuUtil, limit);
    }

    /** `update(util_data, save)`: as MLETracker.Update, then the history
        is saved whatever `save` says. */
    method Update(util: map<string, Reading>, save: bool) returns (r: Result<History>)
      modifies this, file
      ensures Contents() == Sample(old(Contents()), util, limit).history
      ensures (Sample(old(Contents()), util, limit).error.None? && Aligned(old(Contents())) && |old(memUtil)| == limit > 0)
        ==> Contents() == old(Contents())
      ensures Sample(old(Contents()), util, limit).error.Some? ==>
        r.Err? && Some(r.error) == Sample(old(Contents()), util, limit).error && file.rows == old(file.rows)
      ensures Sample(old(Contents()), util, limit).error.None? && Aligned(Contents()) ==>
        r == Ok(Contents()) && file.rows == Some(Stack(Contents()))
      ensures Sample(old(Contents()), util, limit).error.None? && !Aligned(Contents()) ==>
        r == Err(ValueError) && file.rows == old(file.rows)
    {
      if "time_date" !in util {
        return Err(KeyError);
      }
      timesDate := timesDate + [util["time_date"]];
      if "time_hour" !in util {
        return Err(KeyError);
      }
      timesHour := timesHour + [util["time_hour"]];
      var mem := Divide(util, "mem_util", "mem");
      if mem.Err? {
        return Err(mem.error);
      }
      memUtil := memUtil + [mem.value];
      var cpu := Divide(util, "cores_util", "cores");
      if cpu.Err? {
        return Err(cpu.error);
      }
      cpuUtil := cpuUtil + [cpu.value];
      MovingWindow();
      if Aligned(old(Contents())) && |old(memUtil)| == limit > 0 {
        SampleAligned(old(Contents()), util, limit);
      }
      var err := Save();
      if err.Some? {
        return Err(err.value);
      }
      return Ok(Contents());
    }
  }
}
