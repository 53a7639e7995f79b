/** The dict literals of the dashboard panels: output keys, each filled in by
    reading one field of one experiment, in the order the literal lists
    them, so that the first read that raises is the one reported. */
module Views {
  import opened Values

  /** The three dicts a monitor call returns: totals, last experiment, timing. */
  datatype Panels = Panels(total: map<string, string>, last: map<string, Value>, time: map<string, Value>)

  /** One entry of a dict literal: output key and the field it reads. */
  datatype Copy = Copy(out: string, field: string)

  ghost predicate DistinctOuts(copies: seq<Copy>)
  {
    forall i, j :: 0 <= i < j < |copies| ==> copies[i].out != copies[j].out
  }

  /** The dict `{c.out: read(c.field) for c in copies}`, evaluated left to right. */
  function Project(read: string -> Result<Value>, copies: seq<Copy>): (r: Result<map<string, Value>>)
    ensures r.Ok? <==> forall i :: 0 <= i < |copies| ==> read(copies[i].field).Ok?
    ensures r.Ok? ==> r.value.Keys == Outs(copies)
  {
    if copies == [] then Ok(map[])
    else
      var n := |copies| - 1;
      var front :- Project(read, copies[..n]);
      var v :- read(copies[n].field);
      assert forall i :: 0 <= i < n ==> copies[..n][i] == copies[i];
      Ok(front[copies[n].out := v])
  }

  /** A failure is the error of the first read that fails. */
  lemma {:induction false} ProjectError(read: string -> Result<Value>, copies: seq<Copy>)
    requires Project(read, copies).Err?
    ensures exists i :: 0 <= i < |copies| && read(copies[i].field) == Err(Project(read, copies).error)
                        && forall j :: 0 <= j < i ==> read(copies[j].field).Ok?
  {
    var n := |copies| - 1;
    var front := Project(read, copies[..n]);
    if front.Err? {
      ProjectError(read, copies[..n]);
      var i :| 0 <= i < n && read(copies[..n][i].field) == Err(front.error)
               && forall j :: 0 <= j < i ==> read(copies[..n][j].field).Ok?;
      assert forall j :: 0 <= j <= i ==> copies[..n][j] == copies[j];
    } else {
      assert forall j :: 0 <= j < n ==> copies[..n][j] == copies[j];
      assert read(copies[n].field).Err?;
    }
  }

  /** With distinct output keys, each key shows its own field. */
  lemma {:induction false} ProjectValues(read: string -> Result<Value>, copies: seq<Copy>)
    requires Project(read, copies).Ok? && DistinctOuts(copies)
    ensures forall i :: 0 <= i < |copies| ==> Project(read, copies).value[copies[i].out] == read(copies[i].field).value
  {
    if copies != [] {
      var n := |copies| - 1;
      var front := Project(read, copies[..n]);
      assert forall i :: 0 <= i < n ==> copies[..n][i] == copies[i];
      assert DistinctOuts(copies[..n]);
      ProjectValues(read, copies[..n]);
    }
  }

  /** Every output key of `copies`. */
  function Outs(copies: seq<Copy>): set<string>
  {
    set i | 0 <= i < |copies| :: copies[i].out
  }

  /** A dict whose every listed key shows `v`. */
  function Placeholder(keys: set<string>, v: Value): (r: map<string, Value>)
    ensures r.Keys == keys && forall k :: k in r ==> r[k] == v
  {
    map k | k in keys :: v
  }
}
