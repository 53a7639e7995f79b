/** mle_tracker.py: the in-memory utilisation tracker of the dashboard. */
module MleTracker {
  import opened Values
  import opened Utilisation

  class MLETracker {
    var memUtil: seq<real>
    var cpuUtil: seq<real>
    var timesDate: seq<Reading>
    var timesHour: seq<Reading>
    const limit: nat

    function Contents(): History
      reads this
    {
      History(timesDate, timesHour, memUtil, cpuUtil)
    }

    /** An empty history with a limit of 100000 samples. */
    constructor ()
      ensures Contents() == Empty && limit == 100000
    {
      memUtil, cpuUtil, timesDate, timesHour := [], [], [], [];
      limit := 100000;
    }

    /** `moving_window()`: every list cut to its first `limit` entries. */
    method MovingWindow()
      modifies this
      ensures Contents() == Windowed(old(Contents()), limit)
    {
      timesDate := WindowAsWritten(timesDate, limit);
      timesHour := WindowAsWritten(timesHour, limit);
      memUtil := WindowAsWritten(memUtil, limit);
      cpuUtil := WindowAsWritten(cpuUtil, limit);
    }

    /** `update(util_data)`: one sample appended list by list, then the
        window; the four lists are returned.  An exception leaves the
        appends made before it. */
    method Update(util: map<string, Reading>) returns (r: Result<History>)
      modifies this
      ensures Contents() == Sample(old(Contents()), util, limit).history
      ensures (Sample(old(Contents()), util, limit).error.None? && Aligned(old(Contents())) && |old(memUtil)| == limit > 0)
        ==> Contents() == old(Contents())
      ensures r.Ok? <==> Sample(old(Contents()), util, limit).error.None?
      ensures r.Err? ==> Sample(old(Contents()), util, limit).error == Some(r.error)
      ensures r.Ok? ==> r.value == Contents()
    {
      if "time_date" !in util {
        return Err(KeyError);
      }
      timesDate := timesDate + [util["time_date"]];
      if "time_hour" !in util {
        return Err(KeyError);
      }
      timesHour := timesHour + [util["time_hour"]];
      var mem := Divide(util, "mem_util", "mem");
      if mem.Err? {
        return Err(mem.error);
      }
      memUtil := memUtil + [mem.value];
      var cpu := Divide(util, "cores_util", "cores");
      if cpu.Err? {
        return Err(cpu.error);
      }
      cpuUtil := cpuUtil + [cpu.value];
      MovingWindow();
      if Aligned(old(Contents())) && |old(memUtil)| == limit > 0 {
        SampleAligned(old(Contents()), util, limit);
      }
      return Ok(Contents());
    }
  }
}
