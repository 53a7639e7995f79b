/** resource/monitor_slurm.py: the module-level variant of the Slurm
    monitor.  Its jobs are read as in `Slurm`; partitions keep the order of
    their first job, and a failed `squeue` (the parameter `out` is None)
    leaves the job lines unbound. */
module MonitorSlurm {
  import opened Values
  import opened Grouping
  import opened Frames
  import opened Scheduler
  import opened Slurm

  /** `get_user_slurm_data()`: the exception of `squeue` is swallowed, so
      the loop over the never-assigned lines raises UnboundLocalError. */
  function UserSlurmData(out: Option<string>): (r: Result<(seq<UserRow>, seq<SlurmJob>)>)
    ensures out.None? ==> r == Err(UnboundLocalError)
    ensures out.Some? && Jobs(out.value).Ok? ==>
              r == Ok((UserRowsOf(Jobs(out.value).value), Jobs(out.value).value))
    ensures out.Some? && Jobs(out.value).Err? ==> r == Err(Jobs(out.value).error)
  {
    match out
    case None => Err(UnboundLocalError)
    case Some(text) => UserData(text)
  }

  /** `get_host_slurm_data(job_df)`: one row per partition, in order of
      the partition's first job, unsorted. */
  function HostSlurmData(jobs: seq<SlurmJob>): seq<HostRow>
  {
    HostRowsOf(jobs, PartitionOf, Unique(KeysOf(jobs, PartitionOf)))
  }

  /** The loops of `get_user_slurm_data`. */
  method GetUserSlurmData(out: Option<string>) returns (r: Result<(seq<UserRow>, seq<SlurmJob>)>)
    ensures r == UserSlurmData(out)
  {
    if out.None? {
      return Err(UnboundLocalError);
    }
    r := GetUserData(out.value);
  }

  /** The loop of `get_host_slurm_data`. */
  method GetHostSlurmData(jobs: seq<SlurmJob>) returns (rows: seq<HostRow>)
    ensures rows == HostSlurmData(jobs)
  {
    rows := ForEach(h => HostRowOf(jobs, PartitionOf, h), Unique(KeysOf(jobs, PartitionOf)));
  }

  /** Partitions come once each, in order of their first job; every job
      is counted in exactly one row. */
  lemma HostRows(jobs: seq<SlurmJob>)
    ensures var rows := HostSlurmData(jobs);
      && HostNames(rows) == Unique(KeysOf(jobs, PartitionOf))
      && Distinct(HostNames(rows))
      && HostTotal(rows) == |jobs|
      && (forall row :: row in rows ==> row.run <= row.total && row.login == 0)
  {
    var rows := HostSlurmData(jobs);
    HostRowsTotal(jobs, PartitionOf, Unique(KeysOf(jobs, PartitionOf)));
    GroupsPartition(jobs, PartitionOf, Always);
    CountAll(jobs);
    forall row | row in rows
      ensures row.run <= row.total
    {
      GroupAtMost(jobs, PartitionOf, IsRunning, Never, Never, row.host);
    }
  }
}
