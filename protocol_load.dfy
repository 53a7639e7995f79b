/** Recovering the experiment ids and the last id from a stored database:
    `load_protocol_db` of protocol/load.py (integer ids, the "summary" entry
    taken out) and the older one of protocol/protocol_helpers.py (ids of the
    form "<prefix>-<n>", every key kept). */
module ProtocolLoad {
  import opened Values
  import opened Text
  import opened NaturalKeys
  import opened ProtocolStore
  import Sorting

  ghost predicate Distinct(s: seq<string>)
  {
    forall i, j :: 0 <= i < j < |s| ==> s[i] != s[j]
  }

  /** `ids.remove(x)` inside `try: ... except: pass`: the first occurrence
      goes, and a missing `x` is not an error. */
  function RemoveFirst(keys: seq<string>, x: string): (r: seq<string>)
    ensures multiset(r) == multiset(keys) - multiset{x}
    ensures x in keys ==> |r| == |keys| - 1
    ensures x !in keys ==> r == keys
  {
    if keys == [] then []
    else if keys[0] == x then
      assert keys == [x] + keys[1..];
      keys[1..]
    else
      var rest := RemoveFirst(keys[1..], x);
      assert keys == [keys[0]] + keys[1..];
      [keys[0]] + rest
  }

  /** The experiment ids load.py keeps, in the order it keeps them. */
  function ExperimentIds(keys: seq<string>): seq<string>
  {
    NaturalSort(RemoveFirst(keys, SummaryKey))
  }

  /** `int(ids[-1])`, or 0 when there are no ids. */
  function LastId(ids: seq<string>): Result<int>
  {
    if |ids| > 0 then ParseInt(ids[|ids| - 1]) else Ok(0)
  }

  /** `load_protocol_db(protocol_fname)` of protocol/load.py.  The ValueError
      of `int()` is returned in `last`; the database is loaded either way. */
  method LoadProtocolDb(f: PickleFile) returns (db: PickleDb, ids: seq<string>, last: Result<int>)
    requires f.contents.Some? ==> Enumerates(f.contents.value.keys, f.contents.value.entries)
    ensures fresh(db) && db.Valid() && db.file == f
    ensures f.contents.Some? ==> db.keys == f.contents.value.keys && db.entries == f.contents.value.entries
    ensures f.contents.None? ==> db.keys == [] && db.entries == map[]
    ensures ids == ExperimentIds(db.keys) && last == LastId(ids)
  {
    db := new PickleDb.Load(f);
    ids := db.keys;
    ids := RemoveFirst(ids, SummaryKey);
    if |ids| > 0 {
      ids := NaturalSort(ids);
      last := ParseInt(ids[|ids| - 1]);
    } else {
      ids := NaturalSort(ids);
      last := Ok(0);
    }
  }

  // ---- Multiplicities ----

  lemma {:induction false} DistinctOnce(s: seq<string>, x: string)
    requires Distinct(s)
    ensures multiset(s)[x] <= 1
  {
    if s != [] {
      assert Distinct(s[1..]);
      DistinctOnce(s[1..], x);
      assert s == [s[0]] + s[1..];
      if s[0] == x {
        assert x !in s[1..];
      }
    }
  }

  lemma Twice(s: seq<string>, i: nat, j: nat)
    requires i < j < |s| && s[i] == s[j]
    ensures multiset(s)[s[i]] >= 2
  {
    assert s == s[..i] + [s[i]] + s[i + 1..j] + [s[j]] + s[j + 1..];
  }

  lemma OnceDistinct(s: seq<string>)
    requires forall x :: multiset(s)[x] <= 1
    ensures Distinct(s)
  {
    forall i, j | 0 <= i < j < |s|
      ensures s[i] != s[j]
    {
      if s[i] == s[j] { Twice(s, i, j); }
    }
  }

  // ---- What load.py promises ----

  lemma SamePermutation(a: seq<string>, b: seq<string>)
    requires multiset(a) == multiset(b)
    ensures |a| == |b| && forall x :: x in a <==> x in b
  {
    assert |multiset(a)| == |a| && |multiset(b)| == |b|;
    forall x ensures x in a <==> x in b {
      assert x in a <==> x in multiset(a);
      assert x in b <==> x in multiset(b);
    }
  }

  /** The ids are exactly the stored keys other than "summary", each once,
      in natural order; a store without "summary" loses nothing. */
  lemma ExperimentIdsAreKeys(keys: seq<string>)
    requires Distinct(keys)
    ensures var ids := ExperimentIds(keys);
      && SummaryKey !in ids
      && (forall k :: k in ids <==> k in keys && k != SummaryKey)
      && multiset(ids) == multiset(keys) - multiset{SummaryKey}
      && Distinct(ids)
      && Sorting.SortedBy(ids, NaturalLess)
      && (SummaryKey !in keys ==> |ids| == |keys|)
  {
    var r := RemoveFirst(keys, SummaryKey);
    var ids := NaturalSort(r);
    SamePermutation(ids, r);
    forall x
      ensures multiset(ids)[x] <= 1
    {
      DistinctOnce(keys, x);
    }
    OnceDistinct(ids);
    DistinctOnce(keys, SummaryKey);
    assert multiset(ids)[SummaryKey] == 0;
    forall k ensures k in ids <==> k in keys && k != SummaryKey {
      assert k in ids <==> k in multiset(ids);
      assert k in keys <==> k in multiset(keys);
    }
  }

  /** A naturally sorted list of distinct numerals is in increasing numeric order. */
  lemma SortedNumerals(ids: seq<string>)
    requires Distinct(ids) && Sorting.SortedBy(ids, NaturalLess)
    requires forall i :: 0 <= i < |ids| ==> Canonical(ids[i]) && AllDigits(ids[i])
    ensures forall i, j :: 0 <= i < j < |ids| ==> DecimalValue(ids[i]) < DecimalValue(ids[j])
  {
    forall i, j | 0 <= i < j < |ids|
      ensures DecimalValue(ids[i]) < DecimalValue(ids[j])
    {
      NaturalOrderIsNumeric(ids[j], ids[i]);
      CanonicalInjective(ids[i], ids[j]);
    }
  }

  /** `int(a) < int(b)`, both conversions succeeding. */
  predicate NumericallyBefore(a: string, b: string)
  {
    ParseInt(a).Ok? && ParseInt(b).Ok? && ParseInt(a).value < ParseInt(b).value
  }

  lemma CanonicalParses(s: string)
    requires Canonical(s)
    ensures ParseInt(s) == Ok(DecimalValue(s))
  {
    assert IsDigit(s[0]);
  }

  /** When every id is a decimal numeral without leading zeros (as
      `str(last + 1)` writes them), "9" comes before "10": the ids come out
      in strictly increasing numeric order. */
  lemma ExperimentIdsNumeric(keys: seq<string>)
    requires Distinct(keys)
    requires forall k :: k in keys && k != SummaryKey ==> Canonical(k)
    ensures var ids := ExperimentIds(keys);
      forall i, j :: 0 <= i < j < |ids| ==> NumericallyBefore(ids[i], ids[j])
  {
    var ids := ExperimentIds(keys);
    ExperimentIdsAreKeys(keys);
    forall i | 0 <= i < |ids|
      ensures Canonical(ids[i]) && AllDigits(ids[i]) && ParseInt(ids[i]) == Ok(DecimalValue(ids[i]))
    {
      assert ids[i] in ids;
      CanonicalParses(ids[i]);
    }
    SortedNumerals(ids);
  }

  /** The last numeral of a naturally sorted list has the largest value. */
  lemma SortedNumeralsLast(ids: seq<string>)
    requires |ids| > 0 && Sorting.SortedBy(ids, NaturalLess)
    requires forall i :: 0 <= i < |ids| ==> Canonical(ids[i]) && AllDigits(ids[i])
    ensures forall i :: 0 <= i < |ids| ==> DecimalValue(ids[i]) <= DecimalValue(ids[|ids| - 1])
  {
    forall i | 0 <= i < |ids| - 1
      ensures DecimalValue(ids[i]) <= DecimalValue(ids[|ids| - 1])
    {
      NaturalOrderIsNumeric(ids[|ids| - 1], ids[i]);
    }
  }

  /** With integer ids, the last id is the largest stored one, and 0 when
      only "summary" (or nothing) is stored. */
  lemma LastIdIsMaximum(keys: seq<string>)
    requires Distinct(keys)
    requires forall k :: k in keys && k != SummaryKey ==> Canonical(k)
    ensures var last := LastId(ExperimentIds(keys));
      && last.Ok?
      && (forall k :: k in keys && k != SummaryKey ==> ParseInt(k).Ok? && ParseInt(k).value <= last.value)
      && ((exists k :: k in keys && k != SummaryKey && ParseInt(k) == last)
          || (last.value == 0 && forall k :: k in keys ==> k == SummaryKey))
  {
    var ids := ExperimentIds(keys);
    ExperimentIdsAreKeys(keys);
    if |ids| > 0 {
      forall i | 0 <= i < |ids|
        ensures Canonical(ids[i])
      {
        assert ids[i] in ids;
      }
      LastIdBounds(ids);
      assert ids[|ids| - 1] in ids;
    }
  }

  /** In sorted canonical numerals the last one parses to the largest value. */
  lemma LastIdBounds(ids: seq<string>)
    requires |ids| > 0 && Sorting.SortedBy(ids, NaturalLess)
    requires forall i :: 0 <= i < |ids| ==> Canonical(ids[i])
    ensures ParseInt(ids[|ids| - 1]).Ok?
    ensures forall k :: k in ids ==> ParseInt(k).Ok? && ParseInt(k).value <= ParseInt(ids[|ids| - 1]).value
  {
    forall i | 0 <= i < |ids|
      ensures AllDigits(ids[i]) && ParseInt(ids[i]) == Ok(DecimalValue(ids[i]))
    {
      CanonicalParses(ids[i]);
    }
    SortedNumeralsLast(ids);
    forall k | k in ids
      ensures ParseInt(k).Ok? && ParseInt(k).value <= ParseInt(ids[|ids| - 1]).value
    {
      var i :| 0 <= i < |ids| && ids[i] == k;
    }
  }

  /** The first element of a key is the text up to the first digit. */
  lemma FirstChunk(s: string)
    ensures |NaturalKey(s)| > 0 && NaturalKey(s)[0] == Word(s[..NonDigitLen(s)])
  {
    var a := NonDigitLen(s);
    assert SplitDigits(s)[0] == s[..a];
    if a > 0 { assert !IsDigit(s[..a][0]); }
  }

  /** A text starting past '9' is never naturally below one that starts lower. */
  lemma AboveNine(top: string, k: string)
    requires |k| > 0 && k[0] > '9' && !NaturalLess(top, k)
    ensures |top| > 0 && top[0] > '9'
  {
    FirstChunk(top);
    FirstChunk(k);
    var wt, wk := top[..NonDigitLen(top)], k[..NonDigitLen(k)];
    assert |wk| > 0 && wk[0] == k[0] by { assert !IsDigit(k[0]); }
    var kt, kk := NaturalKey(top), NaturalKey(k);
    assert kk != [];
    if kt[0] == kk[0] {
      assert wt == wk;
    } else {
      assert !StrLess(wt, wk);
    }
  }

  lemma RemoveFirstKeeps(keys: seq<string>, x: string, k: string)
    requires k in keys && k != x
    ensures k in RemoveFirst(keys, x)
  {
    assert k in multiset(keys);
    assert k in multiset(RemoveFirst(keys, x));
  }

  /** `int()` rejects a text starting past '9'. */
  lemma NotAnInt(s: string)
    requires |s| > 0 && s[0] > '9'
    ensures ParseInt(s) == Err(ValueError)
  {
    assert !IsDigit(s[0]);
    assert !AllDigits(s);
  }

  /** A key starting past '9' (a letter, say) sorts after every numeral, so
      it comes last and `int()` raises ValueError on it. */
  lemma NonNumericLastFails(keys: seq<string>, k: string)
    requires k in keys && k != SummaryKey && |k| > 0 && k[0] > '9'
    ensures LastId(ExperimentIds(keys)) == Err(ValueError)
  {
    var r := RemoveFirst(keys, SummaryKey);
    var ids := NaturalSort(r);
    RemoveFirstKeeps(keys, SummaryKey, k);
    SamePermutation(ids, r);
    assert k in ids;
    var top := ids[|ids| - 1];
    if top != k {
      var i :| 0 <= i < |ids| && ids[i] == k;
      AboveNine(top, k);
    }
    NotAnInt(top);
  }

  // ---- The prefixed ids of protocol_helpers.py ----

  /** `int(ids[-1].split("-")[-1])`, or 0 when there are no ids. */
  function PrefixedLastId(ids: seq<string>): Result<int>
  {
    if |ids| > 0 then ParseInt(LastPart(ids[|ids| - 1], '-')) else Ok(0)
  }

  /** `load_protocol_db(protocol_fname)` of protocol/protocol_helpers.py:
      every key is an id, "summary" included. */
  method LoadPrefixedDb(f: PickleFile) returns (db: PickleDb, ids: seq<string>, last: Result<int>)
    requires f.contents.Some? ==> Enumerates(f.contents.value.keys, f.contents.value.entries)
    ensures fresh(db) && db.Valid() && db.file == f
    ensures f.contents.Some? ==> db.keys == f.contents.value.keys && db.entries == f.contents.value.entries
    ensures f.contents.None? ==> db.keys == [] && db.entries == map[]
    ensures ids == NaturalSort(db.keys) && last == PrefixedLastId(ids)
  {
    db := new PickleDb.Load(f);
    ids := db.keys;
    if |ids| > 0 {
      ids := NaturalSort(ids);
      last := ParseInt(LastPart(ids[|ids| - 1], '-'));
    } else {
      ids := NaturalSort(ids);
      last := Ok(0);
    }
  }

  /** `prefix + "-" + str(n)`. */
  function Tagged(prefix: string, n: nat): string
  {
    prefix + "-" + NatToString(n)
  }

  lemma NonDigitPrefix(w: string, s: string)
    requires !HasDigit(w) && IsDecimal(s)
    ensures NonDigitLen(w + s) == |w|
  {
    assert IsDigit((w + s)[|w|]) by { assert (w + s)[|w|] == s[0]; }
  }

  /** A digit-free prefix followed by a numeral has the key [prefix, value, ""]. */
  lemma PrefixedKey(w: string, s: string)
    requires !HasDigit(w) && IsDecimal(s)
    ensures NaturalKey(w + s) == [Word(w), Number(DecimalValue(s)), Word("")]
  {
    var t := w + s;
    NonDigitPrefix(w, s);
    assert t[..|w|] == w && t[|w|..] == s;
    assert DigitLen(s) == |s|;
    assert t[|w|..|t|] == s && t[|t|..] == "";
    assert SplitDigits("") == [""];
    assert SplitDigits(t) == [w, s, ""];
    NoDigitNotDecimal(w);
  }

  lemma PrefixedKeyLess(w: string, a: nat, b: nat)
    ensures KeyLess([Word(w), Number(a), Word("")], [Word(w), Number(b), Word("")]) <==> a < b
  {
    var ka: seq<Chunk> := [Word(w), Number(a), Word("")];
    var kb: seq<Chunk> := [Word(w), Number(b), Word("")];
    assert ka[1..] == [Number(a), Word("")] && kb[1..] == [Number(b), Word("")];
    assert KeyLess(ka, kb) == KeyLess(ka[1..], kb[1..]);
    if a == b {
      assert ka[1..][1..] == [Word("")] && kb[1..][1..] == [Word("")];
      assert [Word("")][1..] == [];
      assert KeyLess(ka[1..], kb[1..]) == KeyLess([Word("")], [Word("")]) == KeyLess([], []);
    } else {
      assert KeyLess(ka[1..], kb[1..]) == ChunkLess(Number(a), Number(b));
    }
  }

  lemma LastNotBelow(ids: seq<string>, j: nat)
    requires Sorting.SortedBy(ids, NaturalLess) && j < |ids|
    ensures !NaturalLess(ids[|ids| - 1], ids[j])
  {
    if j == |ids| - 1 {
      NaturalLessStrictWeak();
    }
  }

  /** Natural order on "<prefix>-<n>" is the order of the numbers. */
  lemma TaggedLess(prefix: string, a: nat, b: nat)
    requires !HasDigit(prefix)
    ensures NaturalLess(Tagged(prefix, a), Tagged(prefix, b)) <==> a < b
  {
    var w := prefix + "-";
    assert !HasDigit(w) by {
      assert forall i :: 0 <= i < |w| - 1 ==> w[i] == prefix[i];
    }
    assert Tagged(prefix, a) == w + NatToString(a);
    assert Tagged(prefix, b) == w + NatToString(b);
    PrefixedKey(w, NatToString(a));
    PrefixedKey(w, NatToString(b));
    PrefixedKeyLess(w, a, b);
  }

  /** The text after the last "-" of "<prefix>-<n>" reads back as n. */
  lemma TaggedNumber(prefix: string, n: nat)
    ensures ParseInt(LastPart(Tagged(prefix, n), '-')) == Ok(n)
  {
    var digits := NatToString(n);
    assert '-' !in digits by { assert forall i :: 0 <= i < |digits| ==> IsDigit(digits[i]); }
    LastPartAfter(prefix, '-', digits);
    assert prefix + ['-'] + digits == Tagged(prefix, n);
    CanonicalParses(digits);
  }

  /** With ids "<prefix>-<n>" sharing one digit-free prefix ("e-id-7"), the
      recovered last id is the largest number, read from the text after the
      last "-". */
  lemma PrefixedLastIsMaximum(prefix: string, keys: seq<string>, ns: seq<nat>)
    requires !HasDigit(prefix) && |keys| == |ns| > 0
    requires forall i :: 0 <= i < |keys| ==> keys[i] == Tagged(prefix, ns[i])
    ensures PrefixedLastId(NaturalSort(keys)).Ok?
    ensures forall i :: 0 <= i < |ns| ==> ns[i] <= PrefixedLastId(NaturalSort(keys)).value
    ensures PrefixedLastId(NaturalSort(keys)).value in ns
  {
    var ids := NaturalSort(keys);
    assert |multiset(ids)| == |ids|;
    var top := ids[|ids| - 1];
    assert top in multiset(keys);
    var t :| 0 <= t < |keys| && keys[t] == top;
    TaggedNumber(prefix, ns[t]);
    forall i | 0 <= i < |ns|
      ensures ns[i] <= ns[t]
    {
      assert keys[i] in multiset(ids);
      TaggedBelowLast(prefix, ids, ns[t], ns[i]);
    }
  }

  lemma TaggedBelowLast(prefix: string, ids: seq<string>, a: nat, b: nat)
    requires !HasDigit(prefix) && Sorting.SortedBy(ids, NaturalLess)
    requires |ids| > 0 && ids[|ids| - 1] == Tagged(prefix, a) && Tagged(prefix, b) in ids
    ensures b <= a
  {
    var j :| 0 <= j < |ids| && ids[j] == Tagged(prefix, b);
    LastNotBelow(ids, j);
    TaggedLess(prefix, a, b);
  }
}
