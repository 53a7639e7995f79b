/** What the cluster monitors (resource/sge.py, resource/slurm.py,
    resource/monitor_slurm.py) build from a scheduler's job listing: one
    row per user, sorted by number of jobs, and one row per queue,
    partition or node. */
module Scheduler {
  import opened Values
  import opened Text
  import opened NaturalKeys
  import Sorting
  import opened Grouping

  /** `out.split(b"\n")[skip:-1]`: the lines after `skip` header lines,
      without the empty piece after the final newline. */
  function OutputLines(out: string, skip: nat): (r: seq<string>)
    ensures |SplitOn(out, '\n')| > skip + 1 ==> r == SplitOn(out, '\n')[skip..|SplitOn(out, '\n')| - 1]
    ensures |SplitOn(out, '\n')| <= skip + 1 ==> r == []
  {
    var parts := SplitOn(out, '\n');
    if |parts| <= skip + 1 then [] else parts[skip..|parts| - 1]
  }

  /** One user's jobs: in all, running, waiting and interactive. */
  datatype UserRow = UserRow(user: string, total: nat, run: nat, wait: nat, login: nat)

  /** One queue's, partition's or node's jobs: in all, running, interactive. */
  datatype HostRow = HostRow(host: string, total: nat, run: nat, login: nat)

  /** `host_data["host_id"]`: the hosts of the rows, in order. */
  function HostNames(rows: seq<HostRow>): (r: seq<string>)
    ensures |r| == |rows| && forall i :: 0 <= i < |rows| ==> r[i] == rows[i].host
  {
    seq(|rows|, i requires 0 <= i < |rows| => rows[i].host)
  }

  /** The jobs of all host rows. */
  function HostTotal(rows: seq<HostRow>): nat
  {
    if rows == [] then 0 else HostTotal(rows[..|rows| - 1]) + rows[|rows| - 1].total
  }

  /** The row of user `u`: `df.loc[df["user"] == u]` and its status counts. */
  function UserRowOf<J>(jobs: seq<J>, user: J -> string, run: J -> bool, wait: J -> bool, login: J -> bool, u: string): UserRow
  {
    UserRow(u, GroupCount(jobs, user, Always, u), GroupCount(jobs, user, run, u),
            GroupCount(jobs, user, wait, u), GroupCount(jobs, user, login, u))
  }

  /** The rows of the users `us`, in their order. */
  function RowsOf<J>(jobs: seq<J>, user: J -> string, run: J -> bool, wait: J -> bool, login: J -> bool, us: seq<string>): (r: seq<UserRow>)
    ensures |r| == |us| && forall i :: 0 <= i < |us| ==> r[i] == UserRowOf(jobs, user, run, wait, login, us[i])
  {
    seq(|us|, i requires 0 <= i < |us| => UserRowOf(jobs, user, run, wait, login, us[i]))
  }

  /** The loop over `df.user.unique()`: one row per user, in order of
      their first job. */
  function UserRows<J>(jobs: seq<J>, user: J -> string, run: J -> bool, wait: J -> bool, login: J -> bool): seq<UserRow>
  {
    RowsOf(jobs, user, run, wait, login, Unique(KeysOf(jobs, user)))
  }

  /** The jobs of all rows. */
  function TotalJobs(rows: seq<UserRow>): nat
  {
    if rows == [] then 0 else TotalJobs(rows[..|rows| - 1]) + rows[|rows| - 1].total
  }

  lemma {:induction false} RowsTotal<J>(jobs: seq<J>, user: J -> string, run: J -> bool, wait: J -> bool, login: J -> bool, us: seq<string>)
    ensures TotalJobs(RowsOf(jobs, user, run, wait, login, us)) == GroupTotal(jobs, user, Always, us)
  {
    if us != [] {
      var front := us[..|us| - 1];
      RowsTotal(jobs, user, run, wait, login, front);
      var rows := RowsOf(jobs, user, run, wait, login, us);
      assert rows[..|rows| - 1] == RowsOf(jobs, user, run, wait, login, front);
    }
  }

  /** Every job belongs to exactly one user row, so the totals add up to
      the number of jobs. */
  lemma UserRowsTotal<J>(jobs: seq<J>, user: J -> string, run: J -> bool, wait: J -> bool, login: J -> bool)
    ensures TotalJobs(UserRows(jobs, user, run, wait, login)) == |jobs|
  {
    RowsTotal(jobs, user, run, wait, login, Unique(KeysOf(jobs, user)));
    GroupsPartition(jobs, user, Always);
    CountAll(jobs);
  }

  /** Users appear once each, and every user with a job has a row. */
  lemma UserRowsCover<J>(jobs: seq<J>, user: J -> string, run: J -> bool, wait: J -> bool, login: J -> bool)
    ensures var rows := UserRows(jobs, user, run, wait, login);
      && (forall i, j :: 0 <= i < j < |rows| ==> rows[i].user != rows[j].user)
      && (forall k :: 0 <= k < |jobs| ==> exists i :: 0 <= i < |rows| && rows[i].user == user(jobs[k]))
  {
    var us := Unique(KeysOf(jobs, user));
    var rows := UserRows(jobs, user, run, wait, login);
    assert forall i :: 0 <= i < |rows| ==> rows[i].user == us[i];
    forall k | 0 <= k < |jobs|
      ensures exists i :: 0 <= i < |rows| && rows[i].user == user(jobs[k])
    {
      assert KeysOf(jobs, user)[k] == user(jobs[k]);
      assert user(jobs[k]) in us;
      var i :| 0 <= i < |us| && us[i] == user(jobs[k]);
      assert rows[i].user == user(jobs[k]);
    }
  }

  /** `a` comes first when it has more jobs. */
  function MoreJobs(a: UserRow, b: UserRow): bool
  {
    a.total > b.total
  }

  lemma MoreJobsStrictWeak()
    ensures Sorting.Asymmetric(MoreJobs) && Sorting.NegTransitive(MoreJobs)
  {
  }

  /** `np.argsort(-np.array(total))` applied to every column: the rows by
      decreasing number of jobs. */
  function ByTotal(rows: seq<UserRow>): (r: seq<UserRow>)
    ensures multiset(r) == multiset(rows)
    ensures forall i, j :: 0 <= i < j < |r| ==> r[i].total >= r[j].total
  {
    MoreJobsStrictWeak();
    var sorted := Sorting.SortBy(rows, MoreJobs);
    assert forall i, j :: 0 <= i < j < |sorted| ==> !MoreJobs(sorted[j], sorted[i]);
    sorted
  }

  /** `names.sort(key=natural_keys)` on strings. */
  function SortNatural(names: seq<string>): (r: seq<string>)
    ensures multiset(r) == multiset(names)
    ensures Sorting.SortedBy(r, NaturalLess)
  {
    NaturalLessStrictWeak();
    Sorting.SortBy(names, NaturalLess)
  }

  /** The same on values that may be None: `natural_keys(None)` raises
      TypeError. */
  function SortNaturalOptional(names: seq<Option<string>>): (r: Result<seq<string>>)
    ensures r.Ok? <==> None !in names
    ensures r.Ok? ==> multiset(r.value) == multiset(seq(|names|, i requires 0 <= i < |names| => names[i].value))
                      && Sorting.SortedBy(r.value, NaturalLess)
  {
    if None in names then Err(TypeError)
    else
      var present := seq(|names|, i requires 0 <= i < |names| => names[i].value);
      Ok(SortNatural(present))
  }
}
