/** resource/sge.py: the job listing of a Sun Grid Engine cluster (`qstat`)
    read into jobs, then counted per user, per queue and per node.  The
    output of `qstat` is the parameter `out`; building the command from
    `qconf -suserl` and the configured queues is not modelled. */
module Sge {
  import opened Values
  import opened Text
  import opened NaturalKeys
  import Sorting
  import opened Grouping
  import opened Frames
  import opened Scheduler

  /** The status column: interactive (QLOGIN) and running, running, or
      anything else counted as waiting. */
  datatype Status = Login | Running | Pending

  datatype SgeJob = SgeJob(user: string, queue: Option<string>, node: Option<string>, status: Status)

  function UserOf(j: SgeJob): string { j.user }
  function QueueOf(j: SgeJob): Option<string> { j.queue }
  function NodeOf(j: SgeJob): Option<string> { j.node }
  predicate IsLogin(j: SgeJob) { j.status == Login }
  predicate IsRunning(j: SgeJob) { j.status == Running }
  predicate IsPending(j: SgeJob) { j.status == Pending }
  predicate IsActive(j: SgeJob) { j.status != Pending }

  /** One line of `qstat`, split on blanks: the user is the fourth token,
      the state the fifth, and "queue@node" the eighth, whose node loses
      its last character.  Fewer than eight tokens raise IndexError. */
  function ParseJob(line: string): (r: Result<SgeJob>)
    ensures var t := Tokens(line, IsBlank);
      && (r.Ok? <==> |t| >= 8)
      && (r.Ok? ==> (
          && r.value.user == t[3]
          && (r.value.status == Login <==> "QLOGIN" in t && t[4] == "r")
          && (r.value.status == Running <==> "QLOGIN" !in t && t[4] == "r")
          && (r.value.queue.Some? <==> '@' in t[7])
          && (r.value.node.Some? <==> '@' in t[7])
          && (|SplitOn(t[7], '@')| > 1 ==>
                && r.value.queue == Some(SplitOn(t[7], '@')[0])
                && r.value.node == Some(DropLast(SplitOn(t[7], '@')[1])))))
  {
    var t := Tokens(line, IsBlank);
    if |t| < 8 then Err(IndexError)
    else
      var hostIp := SplitOn(t[7], '@');
      SplitOnMany(t[7], '@');
      var queue := if |hostIp| > 1 then Some(hostIp[0]) else None;
      var node := if |hostIp| > 1 then Some(DropLast(hostIp[1])) else None;
      var status := if "QLOGIN" in t && t[4] == "r" then Login else if t[4] == "r" then Running else Pending;
      Ok(SgeJob(t[3], queue, node, status))
  }

  /** The jobs of the listing after its two header lines. */
  function Jobs(out: string): Result<seq<SgeJob>>
  {
    MapAll(ParseJob, OutputLines(out, 2))
  }

  /** `get_user_data()`: the user rows by decreasing number of jobs, and
      the jobs. */
  function UserData(out: string): Result<(seq<UserRow>, seq<SgeJob>)>
  {
    var jobs :- Jobs(out);
    Ok((ByTotal(UserRows(jobs, UserOf, IsRunning, IsPending, IsLogin)), jobs))
  }

  /** The rows of the hosts `names` under `key` (queue or node). */
  function HostRowsOf(jobs: seq<SgeJob>, key: SgeJob -> Option<string>, names: seq<string>): (r: seq<HostRow>)
    ensures |r| == |names| && HostNames(r) == names
    ensures forall i :: 0 <= i < |names| ==>
      && r[i].total == GroupCount(jobs, key, Always, Some(names[i]))
      && r[i].run == GroupCount(jobs, key, IsRunning, Some(names[i]))
      && r[i].login == GroupCount(jobs, key, IsLogin, Some(names[i]))
  {
    seq(|names|, i requires 0 <= i < |names| =>
      HostRow(names[i], GroupCount(jobs, key, Always, Some(names[i])), GroupCount(jobs, key, IsRunning, Some(names[i])),
              GroupCount(jobs, key, IsLogin, Some(names[i]))))
  }

  /** `get_queue_data` / `get_node_data`: the jobs that are not waiting,
      counted per distinct host in natural order; a job without a host
      makes the sort raise TypeError. */
  function HostData(jobs: seq<SgeJob>, key: SgeJob -> Option<string>): Result<seq<HostRow>>
  {
    var active := Filter(jobs, IsActive);
    var names :- SortNaturalOptional(Unique(KeysOf(active, key)));
    Ok(HostRowsOf(active, key, names))
  }

  function QueueData(jobs: seq<SgeJob>): Result<seq<HostRow>>
  {
    HostData(jobs, QueueOf)
  }

  function NodeData(jobs: seq<SgeJob>): Result<seq<HostRow>>
  {
    HostData(jobs, NodeOf)
  }

  /** The loops of `get_user_data`: one job per line, one row per user. */
  method GetUserData(out: string) returns (r: Result<(seq<UserRow>, seq<SgeJob>)>)
    ensures r == UserData(out)
  {
    var jobs := MapEach(ParseJob, OutputLines(out, 2));
    if jobs.Err? {
      return Err(jobs.error);
    }
    var users := Unique(KeysOf(jobs.value, UserOf));
    var rows := ForEach(u => UserRowOf(jobs.value, UserOf, IsRunning, IsPending, IsLogin, u), users);
    assert rows == UserRows(jobs.value, UserOf, IsRunning, IsPending, IsLogin);
    return Ok((ByTotal(rows), jobs.value));
  }

  /** The loop of `get_queue_data` and `get_node_data`. */
  method GetHostData(jobs: seq<SgeJob>, key: SgeJob -> Option<string>) returns (r: Result<seq<HostRow>>)
    ensures r == HostData(jobs, key)
  {
    var active := Filter(jobs, IsActive);
    var names := SortNaturalOptional(Unique(KeysOf(active, key)));
    if names.Err? {
      return Err(names.error);
    }
    var rows := ForEach(h => HostRow(h, GroupCount(active, key, Always, Some(h)), GroupCount(active, key, IsRunning, Some(h)),
                                      GroupCount(active, key, IsLogin, Some(h))), names.value);
    assert rows == HostRowsOf(active, key, names.value);
    return Ok(rows);
  }

  /** Every job is running, waiting or interactive, so each user's three
      counts add up to the user's jobs; the user rows account for every
      job once, and come by decreasing number of jobs. */
  lemma UserCounts(out: string)
    requires UserData(out).Ok?
    ensures var (rows, jobs) := UserData(out).value;
      && multiset(rows) == multiset(UserRows(jobs, UserOf, IsRunning, IsPending, IsLogin))
      && TotalJobs(UserRows(jobs, UserOf, IsRunning, IsPending, IsLogin)) == |jobs|
      && (forall i, j :: 0 <= i < j < |rows| ==> rows[i].total >= rows[j].total)
      && (forall row :: row in rows ==> row.run + row.wait + row.login == row.total)
  {
    var jobs := Jobs(out).value;
    var unsorted := UserRows(jobs, UserOf, IsRunning, IsPending, IsLogin);
    var rows := ByTotal(unsorted);
    assert UserData(out).value == (rows, jobs);
    UserRowsTotal(jobs, UserOf, IsRunning, IsPending, IsLogin);
    SplitRows(jobs, unsorted);
    forall row | row in rows
      ensures row.run + row.wait + row.login == row.total
    {
      assert row in multiset(unsorted);
    }
  }

  /** Every user row splits its total into running, waiting and interactive jobs. */
  lemma SplitRows(jobs: seq<SgeJob>, unsorted: seq<UserRow>)
    requires unsorted == UserRows(jobs, UserOf, IsRunning, IsPending, IsLogin)
    ensures forall row :: row in unsorted ==> row.run + row.wait + row.login == row.total
  {
    forall row | row in unsorted
      ensures row.run + row.wait + row.login == row.total
    {
      GroupSplit(jobs, UserOf, IsRunning, IsPending, IsLogin, row.user);
    }
  }

  /** A host row counts the jobs on that host that are not waiting, each
      running or interactive; hosts come once each, in natural order. */
  lemma HostCounts(jobs: seq<SgeJob>, key: SgeJob -> Option<string>)
    requires HostData(jobs, key).Ok?
    ensures var rows := HostData(jobs, key).value;
      && (forall row :: row in rows ==> row.run + row.login == row.total)
      && (forall i, j :: 0 <= i < j < |rows| ==> !NaturalLess(rows[j].host, rows[i].host))
  {
    var active := Filter(jobs, IsActive);
    forall row | row in HostData(jobs, key).value
      ensures row.run + row.login == row.total
    {
      GroupSplit(active, key, IsRunning, IsPending, IsLogin, Some(row.host));
      NoneWaiting(active, key, Some(row.host));
    }
  }

  /** Every job that is not waiting has a host, and that host has a row. */
  lemma HostsCover(jobs: seq<SgeJob>, key: SgeJob -> Option<string>)
    requires HostData(jobs, key).Ok?
    ensures forall k :: 0 <= k < |jobs| && IsActive(jobs[k]) ==>
      key(jobs[k]).Some? && key(jobs[k]).value in HostNames(HostData(jobs, key).value)
  {
    var active := Filter(jobs, IsActive);
    var unique := Unique(KeysOf(active, key));
    var names := SortNaturalOptional(unique).value;
    assert HostData(jobs, key).value == HostRowsOf(active, key, names);
    var present := seq(|unique|, i requires 0 <= i < |unique| => unique[i].value);
    forall k | 0 <= k < |jobs| && IsActive(jobs[k])
      ensures key(jobs[k]).Some? && key(jobs[k]).value in names
    {
      assert jobs[k] in active;
      var i :| 0 <= i < |active| && active[i] == jobs[k];
      assert KeysOf(active, key)[i] == key(jobs[k]);
      assert key(jobs[k]) in unique;
      var m :| 0 <= m < |unique| && unique[m] == key(jobs[k]);
      assert present[m] == key(jobs[k]).value;
      assert key(jobs[k]).value in multiset(names);
    }
  }

  /** Among jobs that are not waiting, no group has a waiting job. */
  lemma {:induction false} NoneWaiting(jobs: seq<SgeJob>, key: SgeJob -> Option<string>, k: Option<string>)
    requires forall j :: j in jobs ==> IsActive(j)
    ensures GroupCount(jobs, key, IsPending, k) == 0
  {
    if jobs != [] {
      var front := jobs[..|jobs| - 1];
      assert jobs[|jobs| - 1] in jobs;
      assert forall j :: j in front ==> j in jobs;
      NoneWaiting(front, key, k);
    }
  }
}
