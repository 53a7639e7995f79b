/** The integer part of `estimate_experiment_duration` (protocol/add.py) and
    of the same computation in `get_time_experiment` (monitor/monitor_db.py):
    a "D:H:M" time per batch is multiplied by the number of batches and the
    minutes and hours are carried with `divmod`. */
module Duration {
  import opened Values
  import opened Text

  datatype Carried = Carried(days: int, hours: int, minutes: int)

  /** The two `divmod` carries.  Python's `divmod` by a positive number
      floors, which is what Dafny's `/` and `%` do for a positive divisor. */
  function Carry(batches: int, d: int, h: int, m: int): Carried
  {
    var hoursAdd, minutes := (batches * m) / 60, (batches * m) % 60;
    var daysAdd, hours := (batches * h + hoursAdd) / 24, (batches * h + hoursAdd) % 24;
    Carried(batches * d + daysAdd, hours, minutes)
  }

  /** The carried duration is the total number of minutes, with hours below
      24 and minutes below 60. */
  lemma CarryTotal(batches: int, d: int, h: int, m: int)
    ensures var c := Carry(batches, d, h, m);
      && 0 <= c.minutes < 60 && 0 <= c.hours < 24
      && c.days * 1440 + c.hours * 60 + c.minutes == batches * (d * 1440 + h * 60 + m)
  {
    var hoursAdd, minutes := (batches * m) / 60, (batches * m) % 60;
    var daysAdd, hours := (batches * h + hoursAdd) / 24, (batches * h + hoursAdd) % 24;
    assert batches * m == hoursAdd * 60 + minutes;
    assert batches * h + hoursAdd == daysAdd * 24 + hours;
    assert batches * (d * 1440 + h * 60 + m) == batches * d * 1440 + batches * h * 60 + batches * m;
  }

  /** The carry is the only normal form: any split of the same number of
      minutes into days, hours < 24 and minutes < 60 is the carried one. */
  lemma CarryUnique(batches: int, d: int, h: int, m: int, other: Carried)
    requires 0 <= other.minutes < 60 && 0 <= other.hours < 24
    requires other.days * 1440 + other.hours * 60 + other.minutes == batches * (d * 1440 + h * 60 + m)
    ensures other == Carry(batches, d, h, m)
  {
    var c := Carry(batches, d, h, m);
    CarryTotal(batches, d, h, m);
    var total := c.days * 1440 + c.hours * 60 + c.minutes;
    assert (other.days * 24 + other.hours) * 60 + other.minutes == total;
    assert (c.days * 24 + c.hours) * 60 + c.minutes == total;
    DivModUnique(other.days * 24 + other.hours, other.minutes, c.days * 24 + c.hours, c.minutes, 60);
    DivModUnique(other.days, other.hours, c.days, c.hours, 24);
  }

  lemma DivModUnique(q1: int, r1: int, q2: int, r2: int, n: int)
    requires n > 0 && 0 <= r1 < n && 0 <= r2 < n
    requires q1 * n + r1 == q2 * n + r2
    ensures q1 == q2 && r1 == r2
  {
    if q1 < q2 {
      assert (q2 - q1) * n == q2 * n - q1 * n;
      MulAtLeast(q2 - q1, n);
    } else if q1 > q2 {
      assert (q1 - q2) * n == q1 * n - q2 * n;
      MulAtLeast(q1 - q2, n);
    }
  }

  lemma MulAtLeast(k: int, n: int)
    requires k >= 1 && n > 0
    ensures k * n >= n
  {
    if k > 1 {
      MulAtLeast(k - 1, n);
      assert k * n == (k - 1) * n + n;
    }
  }

  /** `"0" + s` when `len(s) < 2`. */
  function Pad2(s: string): (r: string)
    ensures |r| >= 2 || (|s| == 0 && r == "0")
    ensures |s| >= 2 ==> r == s
    ensures |s| == 1 ==> |r| == 2 && r[0] == '0' && r[1..] == s
  {
    if |s| < 2 then "0" + s else s
  }

  /** The time per batch read as `int` days, hours and minutes, and the batch
      count as a number, in the order the source evaluates them: the split
      into three (ValueError), minutes, the multiplication by the batch count
      (TypeError unless it is an int or a bool), hours, days. */
  function ParseSchedule(timePerBatch: Value, batches: Value): (r: Result<Carried>)
    ensures r.Ok? ==> timePerBatch.Str? && |SplitOn(timePerBatch.s, ':')| == 3
    ensures r.Ok? ==> batches.Int? || batches.Bool?
    ensures r.Ok? ==> 0 <= r.value.hours < 24 && 0 <= r.value.minutes < 60
  {
    if !timePerBatch.Str? then Err(AttributeError)
    else
      var parts := SplitOn(timePerBatch.s, ':');
      if |parts| != 3 then Err(ValueError)
      else
        var m :- ParseInt(parts[2]);
        var b :- AsNumber(batches);
        var h :- ParseInt(parts[1]);
        var d :- ParseInt(parts[0]);
        CarryTotal(b, d, h, m);
        Ok(Carry(b, d, h, m))
  }

  /** A parsed schedule is the time per batch, in minutes, times the batch count. */
  lemma ScheduleTotal(timePerBatch: Value, batches: Value)
    requires ParseSchedule(timePerBatch, batches).Ok?
    ensures var parts := SplitOn(timePerBatch.s, ':');
      var c := ParseSchedule(timePerBatch, batches).value;
      && ParseInt(parts[0]).Ok? && ParseInt(parts[1]).Ok? && ParseInt(parts[2]).Ok? && AsNumber(batches).Ok?
      && c.days * 1440 + c.hours * 60 + c.minutes
         == AsNumber(batches).value * (ParseInt(parts[0]).value * 1440 + ParseInt(parts[1]).value * 60 + ParseInt(parts[2]).value)
  {
    var parts := SplitOn(timePerBatch.s, ':');
    CarryTotal(AsNumber(batches).value, ParseInt(parts[0]).value, ParseInt(parts[1]).value, ParseInt(parts[2]).value);
  }

  /** `tot_days + ":" + tot_hours + ":" + tot_mins`; add.py leaves the days
      unpadded, monitor_db.py pads them like the hours and minutes. */
  function DurationText(c: Carried, padDays: bool): string
  {
    var days := IntToString(c.days);
    Join([if padDays then Pad2(days) else days, Pad2(IntToString(c.hours)), Pad2(IntToString(c.minutes))], ':')
  }

  lemma NoColonInNumber(i: int)
    ensures ':' !in IntToString(i) && ':' !in Pad2(IntToString(i))
  {
    var n := if i < 0 then -i else i;
    var digits := NatToString(n);
    assert forall j :: 0 <= j < |digits| ==> IsDigit(digits[j]);
  }

  lemma ParsePadded(x: int)
    requires 0 <= x
    ensures ParseInt(Pad2(IntToString(x))) == Ok(x)
  {
    var s := NatToString(x);
    ParseIntRoundTrip(x);
    if |s| < 2 {
      var p := "0" + s;
      assert IsDecimal(p);
      assert p[..|p| - 1] == "0";
      assert DecimalValue("0") == 0 by { assert "0"[..0] == ""; }
    }
  }

  /** Reading the duration text back with `split(":")` and `int()` gives the
      carried days, hours and minutes. */
  lemma DurationTextRoundTrip(c: Carried, padDays: bool)
    requires 0 <= c.hours < 24 && 0 <= c.minutes < 60
    requires padDays ==> c.days >= 0
    ensures var parts := SplitOn(DurationText(c, padDays), ':');
      && |parts| == 3
      && ParseInt(parts[0]) == Ok(c.days)
      && ParseInt(parts[1]) == Ok(c.hours)
      && ParseInt(parts[2]) == Ok(c.minutes)
  {
    var days := IntToString(c.days);
    var parts := [if padDays then Pad2(days) else days, Pad2(IntToString(c.hours)), Pad2(IntToString(c.minutes))];
    NoColonInNumber(c.days);
    NoColonInNumber(c.hours);
    NoColonInNumber(c.minutes);
    JoinSplit(parts, ':');
    if padDays { ParsePadded(c.days); } else { ParseIntRoundTrip(c.days); }
    ParsePadded(c.hours);
    ParsePadded(c.minutes);
  }
}
