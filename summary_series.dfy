/** `add_experiment_summary` of protocol/add.py: the "summary" entry of the
    store keeps, per experiment type, a cumulative count series (one point per
    added experiment) and a per-day count series.  The Python code mutates the
    stored lists in place, so an exception half-way leaves every change made
    before it in the store; the functions below return that partial state
    together with the error. */
module SummarySeries {
  import opened Values
  import opened ProtocolStore

  const HyperSearch := "hyperparameter-search"
  const MultiConfigs := "multiple-configs"
  const SingleConfig := "single-config"
  /** `all_experiment_types`, in the order the loops visit them. */
  const AllTypes: seq<string> := [HyperSearch, MultiConfigs, SingleConfig]
  const All := "all"

  /** A dict of integer series: `total_exp` or `day_exp`. */
  type Series = map<string, seq<int>>

  /** The state reached, and the exception raised if the code stopped early. */
  datatype Partial<T> = Partial(value: T, error: Option<Error>)

  function Last(s: seq<int>): int
    requires |s| > 0
  {
    s[|s| - 1]
  }

  function Sum(s: seq<int>): int
  {
    if s == [] then 0 else Sum(s[..|s| - 1]) + s[|s| - 1]
  }

  predicate NonDecreasing(s: seq<int>)
  {
    forall i, j :: 0 <= i < j < |s| ==> s[i] <= s[j]
  }

  predicate Distinct(s: seq<string>)
  {
    forall i, j :: 0 <= i < j < |s| ==> s[i] != s[j]
  }

  /** The key `series[experiment_type]` reads: a str key, KeyError when it is
      absent or not a str, TypeError when the value cannot be a dict key. */
  function KeyOf(m: Series, tv: Value): (r: Result<string>)
    ensures r.Ok? <==> tv.Str? && tv.s in m
    ensures r.Ok? ==> r.value == tv.s
  {
    match tv
    case Str(k) => if k in m then Ok(k) else Err(KeyError)
    case List(_) => Err(TypeError)
    case Dict(_) => Err(TypeError)
    case _ => Err(KeyError)
  }

  /** `m[key].append(m[key][-1] + delta)`. */
  function AppendLast(m: Series, key: string, delta: int): (r: Result<Series>)
    ensures r.Ok? <==> key in m && |m[key]| > 0
    ensures r.Ok? ==> r.value == m[key := m[key] + [Last(m[key]) + delta]]
  {
    if key !in m then Err(KeyError)
    else if m[key] == [] then Err(IndexError)
    else Ok(m[key := m[key] + [Last(m[key]) + delta]])
  }

  /** `m[key].append(0)`. */
  function AppendZero(m: Series, key: string): (r: Result<Series>)
    ensures r.Ok? <==> key in m
    ensures r.Ok? ==> r.value == m[key := m[key] + [0]]
  {
    if key !in m then Err(KeyError) else Ok(m[key := m[key] + [0]])
  }

  /** `m[experiment_type][idx] += 1`; Python reads index -1 as the last one. */
  function IncAt(m: Series, tv: Value, idx: int): (r: Result<Series>)
    ensures r.Ok? <==> tv.Str? && tv.s in m && -|m[tv.s]| <= idx < |m[tv.s]|
    ensures r.Ok? ==> var s := m[tv.s]; var i := if idx < 0 then idx + |s| else idx;
                      r.value == m[tv.s := s[i := s[i] + 1]]
  {
    var k :- KeyOf(m, tv);
    var s := m[k];
    if idx < -|s| || idx >= |s| then Err(IndexError)
    else
      var i := if idx < 0 then idx + |s| else idx;
      Ok(m[k := s[i := s[i] + 1]])
  }

  /** The loop `for k in keys: m[k].append(...)`, stopping at the first
      exception: with `zero` it appends 0, otherwise it repeats the last value. */
  function EachKey(m: Series, keys: seq<string>, zero: bool): Partial<Series>
  {
    if keys == [] then Partial(m, None)
    else
      var p := EachKey(m, keys[..|keys| - 1], zero);
      if p.error.Some? then p
      else
        var k := keys[|keys| - 1];
        match (if zero then AppendZero(p.value, k) else AppendLast(p.value, k, 0))
        case Ok(m') => Partial(m', None)
        case Err(e) => Partial(p.value, Some(e))
  }

  /** `{"all": [1]}` with `[0]` set for every type (add.py lines 127-129). */
  const Fresh: Series := map[All := [1], HyperSearch := [0], MultiConfigs := [0], SingleConfig := [0]]

  /** The first call: the entry is created with the time point, then the
      count dicts; an unknown type stops it after the time point. */
  function Create(tv: Value, time: string, day: string): Partial<SummaryData>
  {
    var started := SummaryData(Some([time]), None, None, None);
    match IncAt(Fresh, tv, -1)
    case Err(e) => Partial(started, Some(e))
    case Ok(counts) => Partial(SummaryData(Some([time]), Some(counts), Some([day]), Some(counts)), None)
  }

  function IndexOf(s: seq<string>, x: string): (i: nat)
    requires x in s
    ensures i < |s| && s[i] == x
    ensures forall j :: 0 <= j < i ==> s[j] != x
  {
    if s[0] == x then 0 else 1 + IndexOf(s[1..], x)
  }

  /** The totals part of a later call (add.py lines 143-150). */
  function ExtendTotals(total: Series, tv: Value): Partial<Series>
  {
    match AppendLast(total, All, 1)
    case Err(e) => Partial(total, Some(e))
    case Ok(m1) =>
      var p := EachKey(m1, AllTypes, false);
      if p.error.Some? then p
      else match IncAt(p.value, tv, -1)
        case Err(e) => Partial(p.value, Some(e))
        case Ok(m2) => Partial(m2, None)
  }

  /** The per-day part of a later call (add.py lines 153-164): the `try`
      bumps the bucket of a known day; any exception in it (unknown day, bad
      type, short series) falls through to appending a new day. */
  function ExtendDays(s: SummaryData, tv: Value, day: string): Partial<SummaryData>
  {
    if s.dayExp.None? then Partial(s, Some(KeyError))
    else
      var dd := s.dayExp.value;
      var attempt: Result<Series> :=
        if s.day.None? then Err(KeyError)
        else if day !in s.day.value then Err(ValueError)
        else IncAt(dd, tv, IndexOf(s.day.value, day));
      match attempt
      case Ok(dd') => Partial(s.(dayExp := Some(dd')), None)
      case Err(_) =>
        if s.day.None? then Partial(s, Some(KeyError))
        else
          var s1 := s.(day := Some(s.day.value + [day]));
          var p := EachKey(dd, AllTypes, true);
          if p.error.Some? then Partial(s1.(dayExp := Some(p.value)), p.error)
          else match IncAt(p.value, tv, -1)
            case Err(e) => Partial(s1.(dayExp := Some(p.value)), Some(e))
            case Ok(dd2) => Partial(s1.(dayExp := Some(dd2)), None)
  }

  /** A later call on an existing entry. */
  function Extend(s: SummaryData, tv: Value, time: string, day: string): Partial<SummaryData>
  {
    if s.totalExp.None? || s.time.None? then Partial(s, Some(KeyError))
    else
      var s1 := s.(time := Some(s.time.value + [time]));
      var p := ExtendTotals(s.totalExp.value, tv);
      var s2 := s1.(totalExp := Some(p.value));
      if p.error.Some? then Partial(s2, p.error)
      else ExtendDays(s2, tv, day)
  }

  /** `add_experiment_summary(db, experiment_type)` on the stored entries,
      with the clock readings `time` and `day` as inputs. */
  function AddSummary(store: Store, tv: Value, time: string, day: string): Partial<Store>
  {
    if SummaryKey !in store then
      var p := Create(tv, time, day);
      Partial(store[SummaryKey := SummaryEntry(p.value)], p.error)
    else match store[SummaryKey]
      case Fields(_) => Partial(store, Some(Unmodelled))
      case SummaryEntry(s) =>
        var p := Extend(s, tv, time, day);
        Partial(store[SummaryKey := SummaryEntry(p.value)], p.error)
  }

  // ---- The invariant of the summary entry ----

  /** The cumulative series: one point per experiment in each of the four,
      "all" counting 1, 2, 3, ..., equal to the sum of the type series at
      every point, and every type series non-decreasing. */
  ghost predicate TotalsValid(total: Series, n: nat)
  {
    && total.Keys == Fresh.Keys && n >= 1
    && |total[All]| == n && |total[HyperSearch]| == n
    && |total[MultiConfigs]| == n && |total[SingleConfig]| == n
    && (forall i :: 0 <= i < n ==> total[All][i] == i + 1)
    && NonDecreasing(total[HyperSearch]) && NonDecreasing(total[MultiConfigs])
    && NonDecreasing(total[SingleConfig])
    && (forall i :: 0 <= i < n ==>
          total[All][i] == total[HyperSearch][i] + total[MultiConfigs][i] + total[SingleConfig][i])
  }

  /** The day buckets of type `t` add up to its latest cumulative count. */
  ghost predicate BucketsMatch(perDay: Series, total: Series, t: string)
  {
    t in perDay && t in total && |total[t]| > 0 && Sum(perDay[t]) == Last(total[t])
  }

  /** The daily series: distinct days, one bucket per day for each type,
      "all" frozen at its first value. */
  ghost predicate DaysValid(perDay: Series, days: seq<string>, total: Series)
  {
    && perDay.Keys == Fresh.Keys && |days| >= 1 && Distinct(days)
    && perDay[All] == [1]
    && |perDay[HyperSearch]| == |days| && |perDay[MultiConfigs]| == |days|
    && |perDay[SingleConfig]| == |days|
    && BucketsMatch(perDay, total, HyperSearch)
    && BucketsMatch(perDay, total, MultiConfigs)
    && BucketsMatch(perDay, total, SingleConfig)
  }

  /** What every sequence of successful adds of known types keeps true. */
  ghost predicate Valid(s: SummaryData)
  {
    && s.time.Some? && s.totalExp.Some? && s.day.Some? && s.dayExp.Some?
    && TotalsValid(s.totalExp.value, |s.time.value|)
    && DaysValid(s.dayExp.value, s.day.value, s.totalExp.value)
  }

  lemma FreshIncrement(k: string)
    requires k in AllTypes
    ensures IncAt(Fresh, Str(k), -1).Ok?
    ensures var m := IncAt(Fresh, Str(k), -1).value;
      && m.Keys == Fresh.Keys && m[All] == [1]
      && forall t :: t in AllTypes ==> m[t] == [if t == k then 1 else 0]
  {
  }

  /** The first add of a known type creates a valid entry whose series all
      have one point: 1 for "all" and for the type, 0 for the others. */
  lemma CreateValid(k: string, time: string, day: string)
    requires k in AllTypes
    ensures Create(Str(k), time, day).error == None
    ensures Valid(Create(Str(k), time, day).value)
    ensures var total := Create(Str(k), time, day).value.totalExp.value;
      forall t :: t in AllTypes ==> total[t] == [if t == k then 1 else 0]
  {
    FreshIncrement(k);
    var m := IncAt(Fresh, Str(k), -1).value;
    assert Sum(m[HyperSearch]) == m[HyperSearch][0] by { assert m[HyperSearch][..0] == []; }
    assert Sum(m[MultiConfigs]) == m[MultiConfigs][0] by { assert m[MultiConfigs][..0] == []; }
    assert Sum(m[SingleConfig]) == m[SingleConfig][0] by { assert m[SingleConfig][..0] == []; }
  }

  /** Any other value as the type of the first add raises before the counts
      are stored, leaving an entry that holds the time point only. */
  lemma CreateUnknownType(tv: Value, time: string, day: string)
    requires !(tv.Str? && tv.s in Fresh)
    ensures Create(tv, time, day) == Partial(SummaryData(Some([time]), None, None, None), Some(KeyOf(Fresh, tv).error))
  {
  }

  /** Once the loop over `keys` has raised, the remaining keys change nothing. */
  lemma {:induction false} EachKeyStops(m: Series, keys: seq<string>, j: nat, zero: bool)
    requires j <= |keys| && EachKey(m, keys[..j], zero).error.Some?
    ensures EachKey(m, keys, zero) == EachKey(m, keys[..j], zero)
    decreases |keys|
  {
    if j < |keys| {
      var init := keys[..|keys| - 1];
      assert init[..j] == keys[..j];
      EachKeyStops(m, init, j, zero);
    } else {
      assert keys[..j] == keys;
    }
  }

  lemma EachKeyRepeatsLast(m: Series)
    requires forall k :: k in AllTypes ==> k in m && |m[k]| > 0
    ensures EachKey(m, AllTypes, false) ==
      Partial(m[HyperSearch := m[HyperSearch] + [Last(m[HyperSearch])]]
               [MultiConfigs := m[MultiConfigs] + [Last(m[MultiConfigs])]]
               [SingleConfig := m[SingleConfig] + [Last(m[SingleConfig])]], None)
  {
    var m1 := m[HyperSearch := m[HyperSearch] + [Last(m[HyperSearch])]];
    var m2 := m1[MultiConfigs := m[MultiConfigs] + [Last(m[MultiConfigs])]];
    assert EachKey(m, [HyperSearch], false) == Partial(m1, None) by {
      assert [HyperSearch][..0] == [];
    }
    assert EachKey(m, [HyperSearch, MultiConfigs], false) == Partial(m2, None) by {
      assert [HyperSearch, MultiConfigs][..1] == [HyperSearch];
    }
    assert AllTypes[..2] == [HyperSearch, MultiConfigs];
  }

  lemma EachKeyAppendsZero(m: Series)
    requires forall k :: k in AllTypes ==> k in m
    ensures EachKey(m, AllTypes, true) ==
      Partial(m[HyperSearch := m[HyperSearch] + [0]]
               [MultiConfigs := m[MultiConfigs] + [0]]
               [SingleConfig := m[SingleConfig] + [0]], None)
  {
    var m1 := m[HyperSearch := m[HyperSearch] + [0]];
    var m2 := m1[MultiConfigs := m[MultiConfigs] + [0]];
    assert EachKey(m, [HyperSearch], true) == Partial(m1, None) by {
      assert [HyperSearch][..0] == [];
    }
    assert EachKey(m, [HyperSearch, MultiConfigs], true) == Partial(m2, None) by {
      assert [HyperSearch, MultiConfigs][..1] == [HyperSearch];
    }
    assert AllTypes[..2] == [HyperSearch, MultiConfigs];
  }

  lemma SumAppend(s: seq<int>, x: int)
    ensures Sum(s + [x]) == Sum(s) + x
  {
    assert (s + [x])[..|s|] == s;
  }

  lemma {:induction false} SumBump(s: seq<int>, i: nat)
    requires i < |s|
    ensures Sum(s[i := s[i] + 1]) == Sum(s) + 1
    decreases |s|
  {
    var t := s[i := s[i] + 1];
    if i < |s| - 1 {
      assert t[..|t| - 1] == s[..|s| - 1][i := s[i] + 1];
      SumBump(s[..|s| - 1], i);
    } else {
      assert t[..|t| - 1] == s[..|s| - 1];
    }
  }

  /** The four cumulative series after a later add of type `k`. */
  function AfterKnown(total: Series, k: string): Series
    requires All in total && |total[All]| > 0
    requires forall t :: t in AllTypes ==> t in total && |total[t]| > 0
  {
    assert HyperSearch in AllTypes && MultiConfigs in AllTypes && SingleConfig in AllTypes;
    total[All := total[All] + [Last(total[All]) + 1]]
         [HyperSearch := total[HyperSearch] + [Last(total[HyperSearch]) + Bump(k, HyperSearch)]]
         [MultiConfigs := total[MultiConfigs] + [Last(total[MultiConfigs]) + Bump(k, MultiConfigs)]]
         [SingleConfig := total[SingleConfig] + [Last(total[SingleConfig]) + Bump(k, SingleConfig)]]
  }

  /** The steps of add.py lines 143-150 on a known type give `AfterKnown`. */
  lemma ExtendTotalsIs(total: Series, k: string)
    requires All in total && |total[All]| > 0
    requires forall t :: t in AllTypes ==> t in total && |total[t]| > 0
    requires k in AllTypes
    ensures ExtendTotals(total, Str(k)) == Partial(AfterKnown(total, k), None)
  {
    var m1 := total[All := total[All] + [Last(total[All]) + 1]];
    assert AppendLast(total, All, 1) == Ok(m1);
    EachKeyRepeatsLast(m1);
    var m2 := m1[HyperSearch := m1[HyperSearch] + [Last(m1[HyperSearch])]]
                [MultiConfigs := m1[MultiConfigs] + [Last(m1[MultiConfigs])]]
                [SingleConfig := m1[SingleConfig] + [Last(m1[SingleConfig])]];
    var s := m2[k];
    var m := m2[k := s[|s| - 1 := s[|s| - 1] + 1]];
    assert IncAt(m2, Str(k), -1) == Ok(m);
    assert ExtendTotals(total, Str(k)) == Partial(m, None);
    AppendBumped(total[k], Last(total[k]));
    assert m == AfterKnown(total, k);
  }

  /** The totals after a later add of type `k`: every series gains one point;
      "all" and `k` go up by one, the other types repeat their last value. */
  lemma ExtendTotalsKnown(total: Series, k: string)
    requires All in total && |total[All]| > 0
    requires forall t :: t in AllTypes ==> t in total && |total[t]| > 0
    requires k in AllTypes
    ensures ExtendTotals(total, Str(k)).error == None
    ensures var m := ExtendTotals(total, Str(k)).value;
      && m.Keys == total.Keys
      && m[All] == total[All] + [Last(total[All]) + 1]
      && (forall t :: t in AllTypes ==> m[t] == total[t] + [Last(total[t]) + Bump(k, t)])
      && (forall t :: t in AllTypes ==> Last(m[t]) == Last(total[t]) + Bump(k, t))
      && m[HyperSearch] == total[HyperSearch] + [Last(total[HyperSearch]) + Bump(k, HyperSearch)]
      && m[MultiConfigs] == total[MultiConfigs] + [Last(total[MultiConfigs]) + Bump(k, MultiConfigs)]
      && m[SingleConfig] == total[SingleConfig] + [Last(total[SingleConfig]) + Bump(k, SingleConfig)]
  {
    ExtendTotalsIs(total, k);
    assert HyperSearch in AllTypes && MultiConfigs in AllTypes && SingleConfig in AllTypes;
  }

  lemma AppendBumped(xs: seq<int>, x: int)
    ensures (xs + [x])[|xs| := x + 1] == xs + [x + 1]
  {
  }

  lemma AppendNonDecreasing(s: seq<int>, x: int)
    requires NonDecreasing(s) && |s| > 0 && x >= Last(s)
    ensures NonDecreasing(s + [x])
  {
  }

  function Bump(k: string, t: string): int
  {
    if t == k then 1 else 0
  }

  /** One step of the cumulative series, stated on the series alone. */
  lemma TotalsAppend(total: Series, m: Series, n: nat, k: string)
    requires TotalsValid(total, n) && k in AllTypes
    requires m.Keys == total.Keys
    requires m[All] == total[All] + [Last(total[All]) + 1]
    requires m[HyperSearch] == total[HyperSearch] + [Last(total[HyperSearch]) + Bump(k, HyperSearch)]
    requires m[MultiConfigs] == total[MultiConfigs] + [Last(total[MultiConfigs]) + Bump(k, MultiConfigs)]
    requires m[SingleConfig] == total[SingleConfig] + [Last(total[SingleConfig]) + Bump(k, SingleConfig)]
    ensures TotalsValid(m, n + 1)
  {
    var hs, mc, sc := m[HyperSearch], m[MultiConfigs], m[SingleConfig];
    AppendNonDecreasing(total[HyperSearch], Last(total[HyperSearch]) + Bump(k, HyperSearch));
    AppendNonDecreasing(total[MultiConfigs], Last(total[MultiConfigs]) + Bump(k, MultiConfigs));
    AppendNonDecreasing(total[SingleConfig], Last(total[SingleConfig]) + Bump(k, SingleConfig));
    assert total[All][n - 1] == n;
    assert Bump(k, HyperSearch) + Bump(k, MultiConfigs) + Bump(k, SingleConfig) == 1;
    forall i | 0 <= i < n + 1
      ensures m[All][i] == i + 1 && m[All][i] == hs[i] + mc[i] + sc[i]
    {
      if i < n {
        assert m[All][i] == total[All][i];
        assert hs[i] == total[HyperSearch][i] && mc[i] == total[MultiConfigs][i] && sc[i] == total[SingleConfig][i];
      }
    }
  }

  lemma ExtendTotalsValid(total: Series, n: nat, k: string)
    requires TotalsValid(total, n) && k in AllTypes
    ensures ExtendTotals(total, Str(k)).error == None
    ensures TotalsValid(ExtendTotals(total, Str(k)).value, n + 1)
    ensures forall t :: t in AllTypes ==>
      Last(ExtendTotals(total, Str(k)).value[t]) == Last(total[t]) + Bump(k, t)
  {
    ExtendTotalsKnown(total, k);
    var m := ExtendTotals(total, Str(k)).value;
    TotalsAppend(total, m, n, k);
  }

  /** The buckets after an add of type `k` on the listed day at `i`. */
  function BumpDay(dd: Series, k: string, i: nat): Series
    requires k in dd && i < |dd[k]|
  {
    dd[k := dd[k][i := dd[k][i] + 1]]
  }

  /** The buckets after an add of type `k` on a new day: a 0 appended
      to every type, then the type's new bucket set to 1. */
  function OpenDay(dd: Series, k: string): Series
    requires k in AllTypes && forall t :: t in AllTypes ==> t in dd
  {
    var dd1 := dd[HyperSearch := dd[HyperSearch] + [0]][MultiConfigs := dd[MultiConfigs] + [0]]
                 [SingleConfig := dd[SingleConfig] + [0]];
    dd1[k := dd1[k][|dd1[k]| - 1 := 1]]
  }

  /** add.py lines 154-157: on a listed day, only that day's bucket of the
      type is bumped, and the days are unchanged. */
  lemma KnownDayAdd(s: SummaryData, k: string, day: string)
    requires s.day.Some? && s.dayExp.Some? && day in s.day.value
    requires k in s.dayExp.value && |s.dayExp.value[k]| == |s.day.value|
    ensures ExtendDays(s, Str(k), day)
         == Partial(s.(dayExp := Some(BumpDay(s.dayExp.value, k, IndexOf(s.day.value, day)))), None)
  {
  }

  /** add.py lines 158-164: on a new day, the day is appended, every type
      gains a 0 bucket and the type's new bucket becomes 1. */
  lemma NewDayAdd(s: SummaryData, k: string, day: string)
    requires s.day.Some? && s.dayExp.Some? && day !in s.day.value
    requires k in AllTypes && forall t :: t in AllTypes ==> t in s.dayExp.value
    ensures ExtendDays(s, Str(k), day)
         == Partial(s.(day := Some(s.day.value + [day]), dayExp := Some(OpenDay(s.dayExp.value, k))), None)
  {
    var dd := s.dayExp.value;
    EachKeyAppendsZero(dd);
    var dd1 := dd[HyperSearch := dd[HyperSearch] + [0]][MultiConfigs := dd[MultiConfigs] + [0]]
                 [SingleConfig := dd[SingleConfig] + [0]];
    assert IncAt(dd1, Str(k), -1) == Ok(OpenDay(dd, k));
  }

  /** An experiment on a day already listed lands in that day's bucket. */
  lemma KnownDayStep(dd: Series, days: seq<string>, before: Series, after: Series, k: string, idx: nat)
    requires DaysValid(dd, days, before) && k in AllTypes && idx < |days|
    requires forall t :: t in AllTypes ==> t in after && |after[t]| > 0 && Last(after[t]) == Last(before[t]) + Bump(k, t)
    ensures DaysValid(dd[k := dd[k][idx := dd[k][idx] + 1]], days, after)
  {
    SumBump(dd[k], idx);
  }

  /** An experiment on a new day opens a bucket for every type. */
  lemma NewDayStep(dd: Series, days: seq<string>, before: Series, after: Series, k: string, day: string)
    requires DaysValid(dd, days, before) && k in AllTypes && day !in days
    requires forall t :: t in AllTypes ==> t in after && |after[t]| > 0 && Last(after[t]) == Last(before[t]) + Bump(k, t)
    ensures var dd1 := dd[HyperSearch := dd[HyperSearch] + [0]][MultiConfigs := dd[MultiConfigs] + [0]]
                         [SingleConfig := dd[SingleConfig] + [0]];
      DaysValid(dd1[k := dd1[k][|dd1[k]| - 1 := 1]], days + [day], after)
  {
    var dd1 := dd[HyperSearch := dd[HyperSearch] + [0]][MultiConfigs := dd[MultiConfigs] + [0]]
                 [SingleConfig := dd[SingleConfig] + [0]];
    SumAppend(dd[HyperSearch], 0);
    SumAppend(dd[MultiConfigs], 0);
    SumAppend(dd[SingleConfig], 0);
    SumBump(dd1[k], |dd1[k]| - 1);
    assert dd1[k][|dd1[k]| - 1] == 0;
    assert Distinct(days + [day]);
  }

  lemma ExtendDaysValid(s: SummaryData, k: string, day: string, before: Series)
    requires s.totalExp.Some? && s.day.Some? && s.dayExp.Some? && k in AllTypes
    requires DaysValid(s.dayExp.value, s.day.value, before)
    requires forall t :: t in AllTypes ==> t in s.totalExp.value && |s.totalExp.value[t]| > 0
    requires forall t :: t in AllTypes ==>
      Last(s.totalExp.value[t]) == Last(before[t]) + Bump(k, t)
    ensures ExtendDays(s, Str(k), day).error == None
    ensures var r := ExtendDays(s, Str(k), day).value;
      && r.time == s.time && r.totalExp == s.totalExp && r.day.Some? && r.dayExp.Some?
      && DaysValid(r.dayExp.value, r.day.value, s.totalExp.value)
    ensures day in s.day.value ==>
      ExtendDays(s, Str(k), day).value == s.(dayExp := Some(BumpDay(s.dayExp.value, k, IndexOf(s.day.value, day))))
    ensures day !in s.day.value ==>
      ExtendDays(s, Str(k), day).value == s.(day := Some(s.day.value + [day]), dayExp := Some(OpenDay(s.dayExp.value, k)))
  {
    var days, dd := s.day.value, s.dayExp.value;
    if day in days {
      ExtendKnownDay(s, k, day, before);
      KnownDayAdd(s, k, day);
    } else {
      ExtendNewDay(s, k, day, before);
      NewDayAdd(s, k, day);
    }
  }

  lemma ExtendKnownDay(s: SummaryData, k: string, day: string, before: Series)
    requires s.totalExp.Some? && s.day.Some? && s.dayExp.Some? && k in AllTypes && day in s.day.value
    requires DaysValid(s.dayExp.value, s.day.value, before)
    requires forall t :: t in AllTypes ==> t in s.totalExp.value && |s.totalExp.value[t]| > 0
    requires forall t :: t in AllTypes ==>
      Last(s.totalExp.value[t]) == Last(before[t]) + Bump(k, t)
    ensures ExtendDays(s, Str(k), day).error == None
    ensures var r := ExtendDays(s, Str(k), day).value;
      && r.time == s.time && r.totalExp == s.totalExp && r.day.Some? && r.dayExp.Some?
      && DaysValid(r.dayExp.value, r.day.value, s.totalExp.value)
  {
    var days, dd := s.day.value, s.dayExp.value;
    KnownDayAdd(s, k, day);
    KnownDayStep(dd, days, before, s.totalExp.value, k, IndexOf(days, day));
  }

  lemma ExtendNewDay(s: SummaryData, k: string, day: string, before: Series)
    requires s.totalExp.Some? && s.day.Some? && s.dayExp.Some? && k in AllTypes && day !in s.day.value
    requires DaysValid(s.dayExp.value, s.day.value, before)
    requires forall t :: t in AllTypes ==> t in s.totalExp.value && |s.totalExp.value[t]| > 0
    requires forall t :: t in AllTypes ==>
      Last(s.totalExp.value[t]) == Last(before[t]) + Bump(k, t)
    ensures ExtendDays(s, Str(k), day).error == None
    ensures var r := ExtendDays(s, Str(k), day).value;
      && r.time == s.time && r.totalExp == s.totalExp && r.day.Some? && r.dayExp.Some?
      && DaysValid(r.dayExp.value, r.day.value, s.totalExp.value)
  {
    var days, dd := s.day.value, s.dayExp.value;
    NewDayAdd(s, k, day);
    NewDayStep(dd, days, before, s.totalExp.value, k, day);
  }

  /** Later adds of a known type keep the entry valid and extend the time
      series by exactly one point. */
  lemma ExtendValid(s: SummaryData, k: string, time: string, day: string)
    requires Valid(s) && k in AllTypes
    ensures Extend(s, Str(k), time, day).error == None
    ensures Valid(Extend(s, Str(k), time, day).value)
    ensures Extend(s, Str(k), time, day).value.time == Some(s.time.value + [time])
    ensures Extend(s, Str(k), time, day).value.totalExp == Some(AfterKnown(s.totalExp.value, k))
    ensures day in s.day.value ==>
      && Extend(s, Str(k), time, day).value.day == s.day
      && Extend(s, Str(k), time, day).value.dayExp == Some(BumpDay(s.dayExp.value, k, IndexOf(s.day.value, day)))
    ensures day !in s.day.value ==>
      && Extend(s, Str(k), time, day).value.day == Some(s.day.value + [day])
      && Extend(s, Str(k), time, day).value.dayExp == Some(OpenDay(s.dayExp.value, k))
  {
    var total := s.totalExp.value;
    ExtendTotalsValid(total, |s.time.value|, k);
    ExtendTotalsIs(total, k);
    var s2 := s.(time := Some(s.time.value + [time]), totalExp := Some(ExtendTotals(total, Str(k)).value));
    ExtendDaysValid(s2, k, day, total);
  }

  /** The totals after a later add of a type that is not a key: every
      series has gained a point, and the increment of the type raises. */
  lemma ExtendTotalsUnknown(total: Series, k: string)
    requires total.Keys == Fresh.Keys && |total[All]| > 0
    requires forall t :: t in AllTypes ==> |total[t]| > 0
    requires k !in Fresh
    ensures ExtendTotals(total, Str(k)).error == Some(KeyError)
    ensures var m := ExtendTotals(total, Str(k)).value;
      && m.Keys == Fresh.Keys
      && m[All] == total[All] + [Last(total[All]) + 1]
      && forall t :: t in AllTypes ==> m[t] == total[t] + [Last(total[t])]
  {
    var m1 := total[All := total[All] + [Last(total[All]) + 1]];
    EachKeyRepeatsLast(m1);
    var t2 := EachKey(m1, AllTypes, false).value;
    assert t2.Keys == Fresh.Keys;
  }

  /** A later add whose type is not one of the known keys raises, after the
      time series and all four cumulative series have already grown: the
      stored entry then breaks the "all" = sum-of-types invariant. */
  lemma ExtendUnknownType(s: SummaryData, k: string, time: string, day: string)
    requires Valid(s) && k !in AllTypes && k != All
    ensures Extend(s, Str(k), time, day).error == Some(KeyError)
    ensures !Valid(Extend(s, Str(k), time, day).value)
  {
    var total := s.totalExp.value;
    var n := |s.time.value|;
    UnknownTotals(total, n, k);
    var m := ExtendTotals(total, Str(k)).value;
    var r := s.(time := Some(s.time.value + [time]), totalExp := Some(m));
    assert Extend(s, Str(k), time, day) == Partial(r, Some(KeyError));
    assert |r.time.value| == n + 1;
  }

  /** The cumulative series after a type that is not a key: the error, and
      "all" is no longer the sum of the types at the new point. */
  lemma UnknownTotals(total: Series, n: nat, k: string)
    requires TotalsValid(total, n) && k !in AllTypes && k != All
    ensures ExtendTotals(total, Str(k)).error == Some(KeyError)
    ensures !TotalsValid(ExtendTotals(total, Str(k)).value, n + 1)
  {
    assert HyperSearch in AllTypes && MultiConfigs in AllTypes && SingleConfig in AllTypes;
    ExtendTotalsUnknown(total, k);
    var m := ExtendTotals(total, Str(k)).value;
    assert m[All][n] == n + 1 by {
      assert total[All][n - 1] == n;
    }
    assert m[HyperSearch][n] + m[MultiConfigs][n] + m[SingleConfig][n] == n by {
      assert total[All][n - 1] == total[HyperSearch][n - 1] + total[MultiConfigs][n - 1] + total[SingleConfig][n - 1];
    }
    BrokenSum(m, n);
  }

  lemma BrokenSum(m: Series, n: nat)
    requires m.Keys == Fresh.Keys && |m[All]| > n && |m[HyperSearch]| > n
    requires |m[MultiConfigs]| > n && |m[SingleConfig]| > n
    requires m[All][n] != m[HyperSearch][n] + m[MultiConfigs][n] + m[SingleConfig][n]
    ensures !TotalsValid(m, n + 1)
  {
  }

  /** The day buckets of a valid entry account for every added experiment once. */
  lemma DayBucketsCountAll(s: SummaryData)
    requires Valid(s)
    ensures var dd := s.dayExp.value;
      Sum(dd[HyperSearch]) + Sum(dd[MultiConfigs]) + Sum(dd[SingleConfig]) == |s.time.value|
  {
    var n := |s.time.value|;
    assert s.totalExp.value[All][n - 1] == n;
  }

  /** `for k in all_experiment_types: d[k] = [0]` on `{"all": [1]}`. */
  method FreshCounts() returns (total: Series)
    ensures total == Fresh
  {
    total := map[All := [1]];
    for i := 0 to |AllTypes|
      invariant total.Keys == {All} + set j | 0 <= j < i :: AllTypes[j]
      invariant total[All] == [1]
      invariant forall j :: 0 <= j < i ==> total[AllTypes[j]] == [0]
    {
      total := total[AllTypes[i] := [0]];
    }
    assert AllTypes[0] == HyperSearch && AllTypes[1] == MultiConfigs && AllTypes[2] == SingleConfig;
    assert (set j | 0 <= j < |AllTypes| :: AllTypes[j]) == {HyperSearch, MultiConfigs, SingleConfig};
  }

  /** The loop over `all_experiment_types` appending to every series, up to
      the first exception. */
  method AppendEach(m: Series, zero: bool) returns (p: Partial<Series>)
    ensures p == EachKey(m, AllTypes, zero)
  {
    var cur := m;
    for i := 0 to |AllTypes|
      invariant EachKey(m, AllTypes[..i], zero) == Partial(cur, None)
    {
      assert AllTypes[..i + 1][..i] == AllTypes[..i];
      var step := if zero then AppendZero(cur, AllTypes[i]) else AppendLast(cur, AllTypes[i], 0);
      if step.Err? {
        EachKeyStops(m, AllTypes, i + 1, zero);
        return Partial(cur, Some(step.error));
      }
      cur := step.value;
    }
    assert AllTypes[..|AllTypes|] == AllTypes;
    return Partial(cur, None);
  }

  /** The cumulative part of a later call, step by step. */
  method ExtendTotalsSteps(total: Series, tv: Value) returns (p: Partial<Series>)
    ensures p == ExtendTotals(total, tv)
  {
    var first := AppendLast(total, All, 1);
    if first.Err? {
      return Partial(total, Some(first.error));
    }
    p := AppendEach(first.value, false);
    if p.error.None? {
      var bumped := IncAt(p.value, tv, -1);
      p := if bumped.Ok? then Partial(bumped.value, None) else Partial(p.value, Some(bumped.error));
    }
  }

  /** The per-day part of a later call, step by step. */
  method ExtendDaysSteps(s: SummaryData, tv: Value, day: string) returns (p: Partial<SummaryData>)
    ensures p == ExtendDays(s, tv, day)
  {
    if s.dayExp.None? {
      return Partial(s, Some(KeyError));
    }
    var perDay := s.dayExp.value;
    var attempt: Result<Series> := Err(KeyError);
    if s.day.Some? {
      if day in s.day.value {
        attempt := IncAt(perDay, tv, IndexOf(s.day.value, day));
      } else {
        attempt := Err(ValueError);
      }
    }
    if attempt.Ok? {
      return Partial(s.(dayExp := Some(attempt.value)), None);
    }
    if s.day.None? {
      return Partial(s, Some(KeyError));
    }
    var s1 := s.(day := Some(s.day.value + [day]));
    var zeros := AppendEach(perDay, true);
    if zeros.error.Some? {
      return Partial(s1.(dayExp := Some(zeros.value)), zeros.error);
    }
    var bumped := IncAt(zeros.value, tv, -1);
    if bumped.Err? {
      return Partial(s1.(dayExp := Some(zeros.value)), Some(bumped.error));
    }
    return Partial(s1.(dayExp := Some(bumped.value)), None);
  }

  /** `add_experiment_summary(db, experiment_type)`: the steps of add.py
      lines 123-164, writing the resulting entry back into the store. */
  method AddExperimentSummary(db: PickleDb, tv: Value, time: string, day: string) returns (err: Option<Error>)
    requires db.Valid()
    modifies db
    ensures db.Valid()
    ensures db.entries == AddSummary(old(db.entries), tv, time, day).value
    ensures err == AddSummary(old(db.entries), tv, time, day).error
    ensures db.keys == if SummaryKey in old(db.entries) then old(db.keys) else old(db.keys) + [SummaryKey]
  {
    if SummaryKey !in db.entries {
      var total := FreshCounts();
      var counts := IncAt(total, tv, -1);
      if counts.Err? {
        db.PutSummary(SummaryData(Some([time]), None, None, None));
        return Some(counts.error);
      }
      db.PutSummary(SummaryData(Some([time]), Some(counts.value), Some([day]), Some(counts.value)));
      return None;
    }
    var entry := db.entries[SummaryKey];
    if entry.Fields? {
      return Some(Unmodelled);
    }
    var s := entry.data;
    if s.totalExp.None? || s.time.None? {
      db.PutSummary(s);
      return Some(KeyError);
    }
    var s1 := s.(time := Some(s.time.value + [time]));
    var totals := ExtendTotalsSteps(s.totalExp.value, tv);
    var s2 := s1.(totalExp := Some(totals.value));
    if totals.error.Some? {
      db.PutSummary(s2);
      return totals.error;
    }
    var days := ExtendDaysSteps(s2, tv, day);
    db.PutSummary(days.value);
    return days.error;
  }
}
