/** resource/slurm.py: the job listing of a Slurm cluster (`squeue`) read
    into jobs, then counted per user, per partition and per node.  The
    output of `squeue` is the parameter `out`. */
module Slurm {
  import opened Values
  import opened Text
  import opened NaturalKeys
  import Sorting
  import opened Grouping
  import opened Frames
  import opened Scheduler

  /** One line of the listing; `state` is Slurm's two-letter job state. */
  datatype SlurmJob = SlurmJob(partition: string, user: string, state: string, runTime: string,
                               node: string, cores: string, memory: string)

  function UserOf(j: SlurmJob): string { j.user }
  function PartitionOf(j: SlurmJob): string { j.partition }
  function NodeOf(j: SlurmJob): string { j.node }
  predicate IsRunning(j: SlurmJob) { j.state == "R" }
  predicate IsPending(j: SlurmJob) { j.state == "PD" }

  /** `job.split()[1:]`: the first token (the quote the output format
      opens every line with) is dropped; the node is the eighth remaining
      token less its last character (the closing quote).  Fewer than eight
      remaining tokens raise IndexError. */
  function ParseJob(line: string): (r: Result<SlurmJob>)
    ensures var t := Tokens(line, IsSpace);
      && (r.Ok? <==> |t| >= 9)
      && (r.Ok? ==> (
          && r.value.partition == t[1] && r.value.user == t[2] && r.value.state == t[3]
          && r.value.runTime == t[4] && r.value.cores == t[6] && r.value.memory == t[7]
          && t[8] == r.value.node + [t[8][|t[8]| - 1]]))
  {
    var t := Tokens(line, IsSpace);
    var clean := if |t| == 0 then [] else t[1..];
    if |clean| < 8 then Err(IndexError)
    else
      assert clean[7] == DropLast(clean[7]) + [clean[7][|clean[7]| - 1]];
      Ok(SlurmJob(clean[0], clean[1], clean[2], clean[3], DropLast(clean[7]), clean[5], clean[6]))
  }

  /** A no-break space separates tokens as `str.split()` does, so it
      shifts every later field of a squeue line. */
  lemma NoBreakSpaceSeparates()
    ensures Tokens("a\U{A0}b", IsSpace) == ["a", "b"]
  {
    TokensAroundSep('a', '\U{A0}', 'b', IsSpace);
  }

  /** The jobs of the listing after its header line. */
  function Jobs(out: string): Result<seq<SlurmJob>>
  {
    MapAll(ParseJob, OutputLines(out, 1))
  }

  /** The per-user rows: "R" runs, "PD" waits, login is always 0. */
  function UserRowsOf(jobs: seq<SlurmJob>): seq<UserRow>
  {
    ByTotal(UserRows(jobs, UserOf, IsRunning, IsPending, Never))
  }

  /** `get_user_data()`: the user rows by decreasing number of jobs, and
      the jobs. */
  function UserData(out: string): Result<(seq<UserRow>, seq<SlurmJob>)>
  {
    var jobs :- Jobs(out);
    Ok((UserRowsOf(jobs), jobs))
  }

  /** The row of host `h` under `key`: all its jobs, the running ones, and
      login 0. */
  function HostRowOf(jobs: seq<SlurmJob>, key: SlurmJob -> string, h: string): HostRow
  {
    HostRow(h, GroupCount(jobs, key, Always, h), GroupCount(jobs, key, IsRunning, h), 0)
  }

  function HostRowsOf(jobs: seq<SlurmJob>, key: SlurmJob -> string, names: seq<string>): (r: seq<HostRow>)
    ensures |r| == |names| && forall i :: 0 <= i < |names| ==> r[i] == HostRowOf(jobs, key, names[i])
    ensures HostNames(r) == names
  {
    seq(|names|, i requires 0 <= i < |names| => HostRowOf(jobs, key, names[i]))
  }

  /** The totals of the rows of `names` add up to the jobs on those hosts. */
  lemma {:induction false} HostRowsTotal(jobs: seq<SlurmJob>, key: SlurmJob -> string, names: seq<string>)
    ensures HostTotal(HostRowsOf(jobs, key, names)) == GroupTotal(jobs, key, Always, names)
  {
    if names != [] {
      var front := names[..|names| - 1];
      HostRowsTotal(jobs, key, front);
      var rows := HostRowsOf(jobs, key, names);
      assert rows[..|rows| - 1] == HostRowsOf(jobs, key, front);
    }
  }

  /** `get_partition_data` / `get_node_data`: every job, waiting ones
      included, counted per distinct host in natural order. */
  function HostData(jobs: seq<SlurmJob>, key: SlurmJob -> string): seq<HostRow>
  {
    HostRowsOf(jobs, key, SortNatural(Unique(KeysOf(jobs, key))))
  }

  function PartitionData(jobs: seq<SlurmJob>): seq<HostRow>
  {
    HostData(jobs, PartitionOf)
  }

  function NodeData(jobs: seq<SlurmJob>): seq<HostRow>
  {
    HostData(jobs, NodeOf)
  }

  /** The loops of `get_user_data`. */
  method GetUserData(out: string) returns (r: Result<(seq<UserRow>, seq<SlurmJob>)>)
    ensures r == UserData(out)
  {
    var jobs := MapEach(ParseJob, OutputLines(out, 1));
    if jobs.Err? {
      return Err(jobs.error);
    }
    var users := Unique(KeysOf(jobs.value, UserOf));
    var rows := ForEach(u => UserRowOf(jobs.value, UserOf, IsRunning, IsPending, Never, u), users);
    assert rows == UserRows(jobs.value, UserOf, IsRunning, IsPending, Never);
    return Ok((ByTotal(rows), jobs.value));
  }

  /** The loop of `get_partition_data` and `get_node_data`. */
  method GetHostData(jobs: seq<SlurmJob>, key: SlurmJob -> string) returns (rows: seq<HostRow>)
    ensures rows == HostData(jobs, key)
  {
    var names := SortNatural(Unique(KeysOf(jobs, key)));
    rows := ForEach(h => HostRowOf(jobs, key, h), names);
  }

  /** Each user's running and waiting jobs are among the user's jobs, and
      no job is interactive; the rows account for every job once, by
      decreasing number of jobs. */
  lemma UserCounts(jobs: seq<SlurmJob>)
    ensures var rows := UserRowsOf(jobs);
      && multiset(rows) == multiset(UserRows(jobs, UserOf, IsRunning, IsPending, Never))
      && TotalJobs(UserRows(jobs, UserOf, IsRunning, IsPending, Never)) == |jobs|
      && (forall i, j :: 0 <= i < j < |rows| ==> rows[i].total >= rows[j].total)
      && (forall row :: row in rows ==> row.run + row.wait <= row.total && row.login == 0)
  {
    var unsorted := UserRows(jobs, UserOf, IsRunning, IsPending, Never);
    UserRowsTotal(jobs, UserOf, IsRunning, IsPending, Never);
    forall row | row in unsorted
      ensures row.run + row.wait <= row.total && row.login == 0
    {
      GroupAtMost(jobs, UserOf, IsRunning, IsPending, Never, row.user);
      NeverCounted(jobs, UserOf, row.user);
    }
    forall row | row in UserRowsOf(jobs)
      ensures row.run + row.wait <= row.total && row.login == 0
    {
      assert row in multiset(unsorted);
    }
  }

  /** Each host row counts at most its jobs as running, and no job as
      interactive; hosts come in natural order. */
  lemma HostCounts(jobs: seq<SlurmJob>, key: SlurmJob -> string)
    ensures var rows := HostData(jobs, key);
      && (forall row :: row in rows ==> row.run <= row.total && row.login == 0)
      && (forall i, j :: 0 <= i < j < |rows| ==> !NaturalLess(rows[j].host, rows[i].host))
  {
    forall row | row in HostData(jobs, key)
      ensures row.run <= row.total
    {
      GroupAtMost(jobs, key, IsRunning, Never, Never, row.host);
    }
  }

  /** Every job's host has a row. */
  lemma HostsCover(jobs: seq<SlurmJob>, key: SlurmJob -> string)
    ensures forall k :: 0 <= k < |jobs| ==> key(jobs[k]) in HostNames(HostData(jobs, key))
  {
    var keys := KeysOf(jobs, key);
    var unique := Unique(keys);
    forall k | 0 <= k < |jobs|
      ensures key(jobs[k]) in SortNatural(unique)
    {
      assert keys[k] == key(jobs[k]);
      assert key(jobs[k]) in keys;
      assert key(jobs[k]) in unique;
      assert key(jobs[k]) in multiset(unique);
    }
  }
}
