/** The utilisation history both trackers keep (mle_tracker.py and
    utils/tracker.py): four parallel lists, extended by one sample per
    update and cut to a storage limit.  Python floats are modelled as exact
    reals. */
module Utilisation {
  import opened Values

  /** A value of the `util_data` dict: a timestamp text or a number. */
  datatype Reading = Text(s: string) | Amount(x: real)

  /** The four lists, as `update` returns them. */
  datatype History = History(timesDate: seq<Reading>, timesHour: seq<Reading>, memUtil: seq<real>, cpuUtil: seq<real>)

  const Empty := History([], [], [], [])

  /** The four lists have one entry per sample. */
  predicate Aligned(h: History)
  {
    |h.timesDate| == |h.timesHour| == |h.memUtil| == |h.cpuUtil|
  }

  /** `util_data[num] / util_data[den]`: KeyError for a missing key (the
      numerator is read first), ZeroDivisionError for a zero denominator,
      TypeError for a text operand. */
  function Divide(util: map<string, Reading>, num: string, den: string): (r: Result<real>)
    ensures r.Ok? <==> (num in util && den in util && util[num].Amount? && util[den].Amount? && util[den].x != 0.0)
    ensures r.Ok? ==> r.value * util[den].x == util[num].x
    ensures num in util && den in util && util[num].Amount? && util[den] == Amount(0.0) ==> r == Err(ZeroDivisionError)
  {
    if num !in util || den !in util then Err(KeyError)
    else match (util[num], util[den])
      case (Amount(a), Amount(b)) => if b == 0.0 then Err(ZeroDivisionError) else Ok(a / b)
      case _ => Err(TypeError)
  }

  /** `xs[:limit]`, as `moving_window` is written: the oldest entries. */
  function WindowAsWritten<T>(xs: seq<T>, limit: nat): (r: seq<T>)
    ensures r <= xs && |r| == (if |xs| <= limit then |xs| else limit)
  {
    if |xs| <= limit then xs else xs[..limit]
  }

  /** `xs[-limit:]`, the most recent `limit` entries, as the window is
      documented ("the last 27 hours"). */
  function Window<T>(xs: seq<T>, limit: nat): (r: seq<T>)
    ensures |r| == (if |xs| <= limit then |xs| else limit)
    ensures r == xs[|xs| - |r|..]
  {
    if |xs| <= limit then xs else xs[|xs| - limit..]
  }

  /** `moving_window()` as written: every list cut to its oldest `limit`
      entries. */
  function Windowed(h: History, limit: nat): History
  {
    History(WindowAsWritten(h.timesDate, limit), WindowAsWritten(h.timesHour, limit),
            WindowAsWritten(h.memUtil, limit), WindowAsWritten(h.cpuUtil, limit))
  }

  /** The window as documented: every list cut to its newest `limit`
      entries. */
  function WindowedAsIntended(h: History, limit: nat): History
  {
    History(Window(h.timesDate, limit), Window(h.timesHour, limit), Window(h.memUtil, limit), Window(h.cpuUtil, limit))
  }

  /** One complete sample appended to each list. */
  function Appended(h: History, date: Reading, hour: Reading, mem: real, cpu: real): History
  {
    History(h.timesDate + [date], h.timesHour + [hour], h.memUtil + [mem], h.cpuUtil + [cpu])
  }

  /** What one `update` leaves: the history and the exception, if any. */
  datatype Step = Step(history: History, error: Option<Error>)

  /** The body of `update` up to the window: the two timestamps and the two
      ratios are appended one after the other, so an exception keeps the
      appends made before it; the window follows a complete sample. */
  function Sample(h: History, util: map<string, Reading>, limit: nat): Step
  {
    if "time_date" !in util then Step(h, Some(KeyError))
    else
      var h1 := h.(timesDate := h.timesDate + [util["time_date"]]);
      if "time_hour" !in util then Step(h1, Some(KeyError))
      else
        var h2 := h1.(timesHour := h1.timesHour + [util["time_hour"]]);
        match Divide(util, "mem_util", "mem")
        case Err(e) => Step(h2, Some(e))
        case Ok(mem) =>
          var h3 := h2.(memUtil := h2.memUtil + [mem]);
          match Divide(util, "cores_util", "cores")
          case Err(e) => Step(h3, Some(e))
          case Ok(cpu) => Step(Windowed(h3.(cpuUtil := h3.cpuUtil + [cpu]), limit), None)
  }

  /** As written, a complete sample keeps the lists aligned and within the
      limit.  Below the limit each list gains the sample just taken (the
      timestamps as given, the memory and core ratios); at or past it the
      window cuts the sample away again, so a full history stays as it is. */
  lemma SampleAligned(h: History, util: map<string, Reading>, limit: nat)
    requires Aligned(h) && limit > 0
    requires Sample(h, util, limit).error.None?
    ensures var r := Sample(h, util, limit).history;
      var full := Appended(h, util["time_date"], util["time_hour"],
                           Divide(util, "mem_util", "mem").value, Divide(util, "cores_util", "cores").value);
      && Aligned(r)
      && |r.memUtil| == (if |h.memUtil| < limit then |h.memUtil| + 1 else limit)
      && (|h.memUtil| < limit ==> r == full)
      && (|h.memUtil| >= limit ==> r == Windowed(h, limit))
      && (|h.memUtil| == limit ==> r == h)
  {
    var mem := Divide(util, "mem_util", "mem").value;
    var cpu := Divide(util, "cores_util", "cores").value;
    var full := Appended(h, util["time_date"], util["time_hour"], mem, cpu);
    assert Sample(h, util, limit).history == Windowed(full, limit);
    if |h.memUtil| >= limit {
      NewestSampleDropped(h.timesDate, util["time_date"], limit);
      NewestSampleDropped(h.timesHour, util["time_hour"], limit);
      NewestSampleDropped(h.memUtil, mem, limit);
      NewestSampleDropped(h.cpuUtil, cpu, limit);
    }
  }

  /** As intended, a complete sample would keep the lists aligned and end
      each with the sample just taken, also once the history is full. */
  lemma SampleKeptAsIntended(h: History, util: map<string, Reading>, limit: nat)
    requires Aligned(h) && limit > 0
    requires Sample(h, util, limit).error.None?
    ensures var mem := Divide(util, "mem_util", "mem").value;
      var cpu := Divide(util, "cores_util", "cores").value;
      var r := WindowedAsIntended(Appended(h, util["time_date"], util["time_hour"], mem, cpu), limit);
      && Aligned(r)
      && |r.memUtil| == (if |h.memUtil| < limit then |h.memUtil| + 1 else limit)
      && r.timesDate[|r.timesDate| - 1] == util["time_date"]
      && r.timesHour[|r.timesHour| - 1] == util["time_hour"]
      && r.memUtil[|r.memUtil| - 1] == mem
      && r.cpuUtil[|r.cpuUtil| - 1] == cpu
  {
    var mem := Divide(util, "mem_util", "mem").value;
    var cpu := Divide(util, "cores_util", "cores").value;
    LastKept(h.timesDate, util["time_date"], limit);
    LastKept(h.timesHour, util["time_hour"], limit);
    LastKept(h.memUtil, mem, limit);
    LastKept(h.cpuUtil, cpu, limit);
  }

  /** The window of a list with a new last entry ends with that entry. */
  lemma LastKept<T>(xs: seq<T>, x: T, limit: nat)
    requires limit > 0
    ensures |Window(xs + [x], limit)| > 0 && Window(xs + [x], limit)[|Window(xs + [x], limit)| - 1] == x
  {
  }

  /** A zero total memory raises ZeroDivisionError after both timestamps
      were appended, so the lists are no longer aligned: two of them are one
      entry longer than the other two. */
  lemma ZeroMemoryMisaligns(h: History, util: map<string, Reading>, limit: nat)
    requires Aligned(h)
    requires {"time_date", "time_hour", "mem_util", "mem"} <= util.Keys
    requires util["mem_util"].Amount? && util["mem"] == Amount(0.0)
    ensures Sample(h, util, limit).error == Some(ZeroDivisionError)
    ensures var r := Sample(h, util, limit).history;
      && |r.timesDate| == |r.timesHour| == |h.timesDate| + 1
      && |r.memUtil| == |r.cpuUtil| == |h.memUtil|
      && !Aligned(r)
  {
  }

  /** As written, once a list holds `limit` entries the window throws the
      newest one away: the list stops changing. */
  lemma NewestSampleDropped<T>(xs: seq<T>, x: T, limit: nat)
    requires |xs| >= limit
    ensures WindowAsWritten(xs + [x], limit) == WindowAsWritten(xs, limit) == xs[..limit]
    ensures |xs| == limit ==> WindowAsWritten(xs + [x], limit) == xs
  {
    assert (xs + [x])[..limit] == xs[..limit];
  }

  /** As intended, the window of a full list drops the oldest entry and
      keeps the newest. */
  lemma OldestSampleDropped<T>(xs: seq<T>, x: T, limit: nat)
    requires |xs| == limit > 0
    ensures Window(xs + [x], limit) == xs[1..] + [x]
  {
    assert (xs + [x])[1..] == xs[1..] + [x];
  }
}
