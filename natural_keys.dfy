/** The "natural" sort key of utils/helpers.py (and the copies nested in
    protocol/load.py and protocol/protocol_helpers.py): a string is cut by
    `re.split(r"(\d+)", text)` into alternating runs of non-digits and
    digits, and every all-digit piece is turned into an int by `atoi`. */
module NaturalKeys {
  import opened Values
  import opened Text
  import Sorting

  /** One element of a key: a str or an int. */
  datatype Chunk = Word(t: string) | Number(n: nat)

  /** Length of the longest prefix holding no digit. */
  function NonDigitLen(s: string): (n: nat)
    ensures n <= |s|
    ensures forall i :: 0 <= i < n ==> !IsDigit(s[i])
    ensures n < |s| ==> IsDigit(s[n])
  {
    if s == [] || IsDigit(s[0]) then 0 else 1 + NonDigitLen(s[1..])
  }

  /** Length of the longest prefix made of digits. */
  function DigitLen(s: string): (n: nat)
    ensures n <= |s|
    ensures forall i :: 0 <= i < n ==> IsDigit(s[i])
    ensures n < |s| ==> !IsDigit(s[n])
  {
    if s == [] || !IsDigit(s[0]) then 0 else 1 + DigitLen(s[1..])
  }

  function Concat(pieces: seq<string>): string
  {
    if pieces == [] then "" else pieces[0] + Concat(pieces[1..])
  }

  /** What `re.split(r"(\d+)", text)` returns: an odd number of pieces,
      non-digit text (possibly empty) at even positions and maximal digit
      runs at odd positions, so an interior non-digit piece is never empty. */
  ghost predicate WellSplit(p: seq<string>)
  {
    && |p| % 2 == 1
    && (forall i :: 0 <= i < |p| && i % 2 == 0 ==> !HasDigit(p[i]))
    && (forall i :: 0 <= i < |p| && i % 2 == 1 ==> IsDecimal(p[i]))
    && (forall i :: 0 < i < |p| - 1 && i % 2 == 0 ==> |p[i]| > 0)
  }

  lemma ConsWellSplit(x: string, y: string, tail: seq<string>)
    requires !HasDigit(x) && IsDecimal(y) && WellSplit(tail)
    requires |tail| > 1 ==> |tail[0]| > 0
    ensures WellSplit([x, y] + tail)
  {
    var r := [x, y] + tail;
    forall i | 2 <= i < |r|
      ensures r[i] == tail[i - 2] && (i % 2 == (i - 2) % 2)
    {
    }
  }

  lemma ConcatCons(x: string, y: string, tail: seq<string>)
    ensures Concat([x, y] + tail) == x + (y + Concat(tail))
  {
    var r := [x, y] + tail;
    assert r[1..] == [y] + tail;
    assert r[1..][1..] == tail;
  }

  lemma NonDigitStart(s: string, c: nat, tail: seq<string>)
    requires c <= |s| && (c < |s| ==> !IsDigit(s[c])) && |tail| > 0
    requires tail[0] == s[c..][..NonDigitLen(s[c..])]
    ensures c < |s| ==> |tail[0]| > 0
  {
    if c < |s| {
      assert s[c..][0] == s[c];
    }
  }

  /** `re.split(r"(\d+)", text)`. */
  function SplitDigits(s: string): (r: seq<string>)
    ensures |r| >= 1 && r[0] == s[..NonDigitLen(s)]
    decreases |s|
  {
    var a := NonDigitLen(s);
    if a == |s| then [s]
    else
      var c := a + DigitLen(s[a..]);
      assert IsDigit(s[a..][0]);
      [s[..a], s[a..c]] + SplitDigits(s[c..])
  }

  lemma ThreeParts(s: string, a: nat, c: nat)
    requires a <= c <= |s|
    ensures s == s[..a] + (s[a..c] + s[c..])
  {
    assert s[a..c] + s[c..] == s[a..];
    assert s[..a] + s[a..] == s;
  }

  /** The leading non-digits hold no digit. */
  lemma LeadNoDigit(s: string)
    ensures !HasDigit(s[..NonDigitLen(s)])
  {
    var a := NonDigitLen(s);
    forall i | 0 <= i < a ensures !IsDigit(s[..a][i]) {
      assert s[..a][i] == s[i];
    }
  }

  /** The digit run after them is a decimal numeral. */
  lemma RunDecimal(s: string, a: nat)
    requires a < |s| && IsDigit(s[a])
    ensures IsDecimal(s[a..a + DigitLen(s[a..])])
  {
    var rest := s[a..];
    var b := DigitLen(rest);
    assert rest[0] == s[a];
    var run := s[a..a + b];
    forall i | 0 <= i < b ensures IsDigit(run[i]) {
      assert run[i] == rest[i];
    }
  }

  /** The text after the run starts with a non-digit. */
  lemma AfterRun(s: string, a: nat)
    requires a <= |s|
    ensures var c := a + DigitLen(s[a..]);
      c <= |s| && (c < |s| ==> !IsDigit(s[c]))
  {
    var rest := s[a..];
    var b := DigitLen(rest);
    if a + b < |s| {
      assert s[a + b] == rest[b];
    }
  }

  /** The pieces alternate as described. */
  lemma {:induction false} SplitDigitsWellSplit(s: string)
    ensures WellSplit(SplitDigits(s))
    decreases |s|
  {
    var a := NonDigitLen(s);
    if a == |s| {
      LeadNoDigit(s);
      assert s[..a] == s;
      assert SplitDigits(s) == [s];
    } else {
      var c := a + DigitLen(s[a..]);
      var tail := SplitDigits(s[c..]);
      assert SplitDigits(s) == [s[..a], s[a..c]] + tail;
      LeadNoDigit(s);
      RunDecimal(s, a);
      AfterRun(s, a);
      SplitDigitsWellSplit(s[c..]);
      NonDigitStart(s, c, tail);
      ConsWellSplit(s[..a], s[a..c], tail);
    }
  }

  /** The pieces concatenate back to the text. */
  lemma {:induction false} SplitDigitsConcat(s: string)
    ensures Concat(SplitDigits(s)) == s
    decreases |s|
  {
    var a := NonDigitLen(s);
    if a == |s| {
      assert SplitDigits(s) == [s];
      assert [s][1..] == [];
    } else {
      var c := a + DigitLen(s[a..]);
      assert SplitDigits(s) == [s[..a], s[a..c]] + SplitDigits(s[c..]);
      SplitDigitsConcat(s[c..]);
      ConcatCons(s[..a], s[a..c], SplitDigits(s[c..]));
      ThreeParts(s, a, c);
    }
  }

  /** `atoi`: an int exactly when the piece is all digits. */
  function Atoi(piece: string): (c: Chunk)
    ensures c.Number? <==> IsDecimal(piece)
    ensures c.Number? ==> c.n == DecimalValue(piece)
    ensures c.Word? ==> c.t == piece
  {
    if IsDecimal(piece) then Number(DecimalValue(piece)) else Word(piece)
  }

  /** `natural_keys(text)`. */
  function NaturalKey(s: string): seq<Chunk>
  {
    var p := SplitDigits(s);
    seq(|p|, i requires 0 <= i < |p| => Atoi(p[i]))
  }

  /** The key has odd length, strs at even and ints at odd positions. */
  lemma NaturalKeyShape(s: string)
    ensures |NaturalKey(s)| % 2 == 1
    ensures forall i :: 0 <= i < |NaturalKey(s)| ==> (NaturalKey(s)[i].Word? <==> i % 2 == 0)
  {
    SplitDigitsWellSplit(s);
    var p := SplitDigits(s);
    forall i | 0 <= i < |p| && i % 2 == 0
      ensures !IsDecimal(p[i])
    {
      NoDigitNotDecimal(p[i]);
    }
  }

  lemma NoDigitNotDecimal(s: string)
    requires !HasDigit(s)
    ensures !IsDecimal(s)
  {
    if |s| > 0 { assert IsDigit(s[0]) ==> HasDigit(s); }
  }

  /** Text without digits is its own one-element key. */
  lemma NoDigitKey(s: string)
    requires !HasDigit(s)
    ensures NaturalKey(s) == [Word(s)]
  {
    assert NonDigitLen(s) == |s| by {
      if NonDigitLen(s) < |s| { assert IsDigit(s[NonDigitLen(s)]); }
    }
    NoDigitNotDecimal(s);
    assert SplitDigits(s) == [s];
  }

  /** A decimal numeral's key is ["", value, ""]. */
  lemma DecimalKey(s: string)
    requires IsDecimal(s)
    ensures NaturalKey(s) == [Word(""), Number(DecimalValue(s)), Word("")]
  {
    assert NonDigitLen(s) == 0 by { assert IsDigit(s[0]); }
    assert DigitLen(s) == |s|;
    assert s[..0] == "" && s[0..] == s;
    assert s[0..][..|s|] == s && s[0..][|s|..] == "";
    assert SplitDigits("") == [""];
    assert SplitDigits(s) == ["", s, ""];
  }

  function Print(c: Chunk): string
  {
    match c
    case Word(t) => t
    case Number(n) => NatToString(n)
  }

  function PrintAll(k: seq<Chunk>): string
  {
    if k == [] then "" else Print(k[0]) + PrintAll(k[1..])
  }

  /** No digit run of the text starts with a redundant zero. */
  ghost predicate NoLeadingZeroRuns(s: string)
  {
    var p := SplitDigits(s);
    forall i :: 0 <= i < |p| && i % 2 == 1 ==> Canonical(p[i])
  }

  lemma {:induction false} PrintPieces(p: seq<string>)
    requires forall i :: 0 <= i < |p| ==> IsDecimal(p[i]) ==> Canonical(p[i])
    ensures PrintAll(seq(|p|, i requires 0 <= i < |p| => Atoi(p[i]))) == Concat(p)
  {
    if p != [] {
      var k := seq(|p|, i requires 0 <= i < |p| => Atoi(p[i]));
      PrintPieces(p[1..]);
      assert k[1..] == seq(|p[1..]|, i requires 0 <= i < |p[1..]| => Atoi(p[1..][i]));
      if IsDecimal(p[0]) { DecimalRoundTrip(p[0]); }
    }
  }

  /** Printing each int back and concatenating reproduces the text, as long
      as no digit run has a leading zero. */
  lemma NaturalKeyRoundTrip(s: string)
    requires NoLeadingZeroRuns(s)
    ensures PrintAll(NaturalKey(s)) == s
  {
    SplitDigitsWellSplit(s);
    SplitDigitsConcat(s);
    var p := SplitDigits(s);
    forall i | 0 <= i < |p|
      ensures IsDecimal(p[i]) ==> Canonical(p[i])
    {
      if i % 2 == 0 { NoDigitNotDecimal(p[i]); }
    }
    PrintPieces(p);
  }

  // ---- Python's comparison of key lists ----

  /** `a < b` on Python strs: code-point lexicographic order. */
  function StrLess(a: string, b: string): bool
  {
    if a == [] then b != []
    else if b == [] then false
    else if a[0] != b[0] then a[0] < b[0]
    else StrLess(a[1..], b[1..])
  }

  /** `a < b` on two key elements; a str against an int raises TypeError. */
  function ChunkCompare(a: Chunk, b: Chunk): Result<bool>
  {
    match (a, b)
    case (Word(x), Word(y)) => Ok(StrLess(x, y))
    case (Number(x), Number(y)) => Ok(x < y)
    case _ => Err(TypeError)
  }

  /** `a < b` on Python lists: the first unequal elements decide, else the shorter list is smaller. */
  function KeyCompare(a: seq<Chunk>, b: seq<Chunk>): Result<bool>
  {
    if a == [] then Ok(b != [])
    else if b == [] then Ok(false)
    else if a[0] == b[0] then KeyCompare(a[1..], b[1..])
    else ChunkCompare(a[0], b[0])
  }

  function ChunkLess(a: Chunk, b: Chunk): bool
  {
    match ChunkCompare(a, b)
    case Ok(x) => x
    case Err(_) => false
  }

  /** The order `list.sort(key=natural_keys)` uses, where it is defined. */
  function KeyLess(a: seq<Chunk>, b: seq<Chunk>): bool
  {
    if a == [] then b != []
    else if b == [] then false
    else if a[0] == b[0] then KeyLess(a[1..], b[1..])
    else ChunkLess(a[0], b[0])
  }

  ghost predicate SameKinds(a: seq<Chunk>, b: seq<Chunk>)
  {
    forall i :: 0 <= i < |a| && i < |b| ==> a[i].Word? == b[i].Word?
  }

  lemma {:induction false} CompareDefined(a: seq<Chunk>, b: seq<Chunk>)
    requires SameKinds(a, b)
    ensures KeyCompare(a, b) == Ok(KeyLess(a, b))
  {
    if a != [] && b != [] && a[0] == b[0] {
      assert SameKinds(a[1..], b[1..]) by {
        forall i | 0 <= i < |a[1..]| && i < |b[1..]|
          ensures a[1..][i].Word? == b[1..][i].Word?
        {
          assert a[1..][i] == a[i + 1] && b[1..][i] == b[i + 1];
        }
      }
      CompareDefined(a[1..], b[1..]);
    }
  }

  /** Sorting by natural keys never compares a str with an int. */
  lemma NaturalCompareDefined(x: string, y: string)
    ensures KeyCompare(NaturalKey(x), NaturalKey(y)) == Ok(KeyLess(NaturalKey(x), NaturalKey(y)))
  {
    NaturalKeyShape(x);
    NaturalKeyShape(y);
    CompareDefined(NaturalKey(x), NaturalKey(y));
  }

  lemma {:induction false} StrLessTransitive(a: string, b: string, c: string)
    requires StrLess(a, b) && StrLess(b, c)
    ensures StrLess(a, c)
  {
    if a != [] && b != [] && c != [] && a[0] == b[0] && b[0] == c[0] {
      StrLessTransitive(a[1..], b[1..], c[1..]);
    }
  }

  lemma {:induction false} StrLessAsymmetric(a: string, b: string)
    requires StrLess(a, b)
    ensures !StrLess(b, a)
  {
    if a != [] && b != [] && a[0] == b[0] {
      StrLessAsymmetric(a[1..], b[1..]);
    }
  }

  lemma StrLessIrreflexive(a: string)
    ensures !StrLess(a, a)
  {
    if StrLess(a, a) { StrLessAsymmetric(a, a); }
  }

  lemma ChunkLessTransitive(a: Chunk, b: Chunk, c: Chunk)
    requires ChunkLess(a, b) && ChunkLess(b, c)
    ensures ChunkLess(a, c)
  {
    if a.Word? { StrLessTransitive(a.t, b.t, c.t); }
  }

  lemma ChunkLessAsymmetric(a: Chunk, b: Chunk)
    requires ChunkLess(a, b)
    ensures !ChunkLess(b, a)
  {
    if a.Word? { StrLessAsymmetric(a.t, b.t); }
  }

  lemma {:induction false} KeyLessTransitive(a: seq<Chunk>, b: seq<Chunk>, c: seq<Chunk>)
    requires KeyLess(a, b) && KeyLess(b, c)
    ensures KeyLess(a, c)
  {
    if a != [] && b != [] && c != [] {
      if a[0] == b[0] && b[0] == c[0] {
        KeyLessTransitive(a[1..], b[1..], c[1..]);
      } else if a[0] != b[0] && b[0] != c[0] {
        ChunkLessTransitive(a[0], b[0], c[0]);
        if a[0] == c[0] { ChunkLessAsymmetric(a[0], b[0]); }
      }
    }
  }

  lemma {:induction false} KeyLessAsymmetric(a: seq<Chunk>, b: seq<Chunk>)
    requires KeyLess(a, b)
    ensures !KeyLess(b, a)
  {
    if a != [] && b != [] {
      if a[0] == b[0] {
        KeyLessAsymmetric(a[1..], b[1..]);
      } else {
        ChunkLessAsymmetric(a[0], b[0]);
      }
    }
  }

  lemma {:induction false} StrLessTotal(a: string, b: string)
    ensures StrLess(a, b) || StrLess(b, a) || a == b
  {
    if a != [] && b != [] && a[0] == b[0] {
      StrLessTotal(a[1..], b[1..]);
      if a[1..] == b[1..] { assert a == [a[0]] + a[1..] && b == [b[0]] + b[1..]; }
    }
  }

  /** Keys whose elements match in kind are totally ordered. */
  lemma {:induction false} KeyLessTotal(a: seq<Chunk>, b: seq<Chunk>)
    requires SameKinds(a, b)
    ensures KeyLess(a, b) || KeyLess(b, a) || a == b
  {
    if a != [] && b != [] {
      if a[0] == b[0] {
        assert SameKinds(a[1..], b[1..]) by {
          forall i | 0 <= i < |a[1..]| && i < |b[1..]|
            ensures a[1..][i].Word? == b[1..][i].Word?
          {
            assert a[1..][i] == a[i + 1] && b[1..][i] == b[i + 1];
          }
        }
        KeyLessTotal(a[1..], b[1..]);
        if a[1..] == b[1..] { assert a == [a[0]] + a[1..] && b == [b[0]] + b[1..]; }
      } else if a[0].Word? {
        StrLessTotal(a[0].t, b[0].t);
      }
    }
  }

  /** The strict order `sort(key=natural_keys)` arranges strings by. */
  function NaturalLess(x: string, y: string): bool
  {
    KeyLess(NaturalKey(x), NaturalKey(y))
  }

  lemma NumberKeyLess(a: nat, b: nat)
    ensures KeyLess([Word(""), Number(a), Word("")], [Word(""), Number(b), Word("")]) <==> a < b
  {
    var ka: seq<Chunk> := [Word(""), Number(a), Word("")];
    var kb: seq<Chunk> := [Word(""), Number(b), Word("")];
    assert ka[1..] == [Number(a), Word("")] && kb[1..] == [Number(b), Word("")];
    assert KeyLess(ka, kb) == KeyLess(ka[1..], kb[1..]);
    if a == b {
      assert ka[1..][1..] == [Word("")] && kb[1..][1..] == [Word("")];
      assert [Word("")][1..] == [];
      assert KeyLess(ka[1..], kb[1..]) == KeyLess([Word("")], [Word("")]) == KeyLess([], []);
    } else {
      assert KeyLess(ka[1..], kb[1..]) == ChunkLess(Number(a), Number(b));
    }
  }

  /** For decimal strings without leading zeros, natural order is numeric order. */
  lemma NaturalOrderIsNumeric(x: string, y: string)
    requires IsDecimal(x) && IsDecimal(y)
    ensures NaturalLess(x, y) <==> DecimalValue(x) < DecimalValue(y)
  {
    DecimalKey(x);
    DecimalKey(y);
    NumberKeyLess(DecimalValue(x), DecimalValue(y));
  }

  /** Natural order is a strict weak order on all strings, so sorting by it
      is well defined. */
  lemma NaturalLessStrictWeak()
    ensures Sorting.Asymmetric(NaturalLess)
    ensures Sorting.NegTransitive(NaturalLess)
  {
    forall x, y | NaturalLess(x, y)
      ensures !NaturalLess(y, x)
    {
      KeyLessAsymmetric(NaturalKey(x), NaturalKey(y));
    }
    forall x, y, z | !NaturalLess(x, y) && !NaturalLess(y, z)
      ensures !NaturalLess(x, z)
    {
      var kx, ky, kz := NaturalKey(x), NaturalKey(y), NaturalKey(z);
      NaturalKeyShape(x);
      NaturalKeyShape(y);
      NaturalKeyShape(z);
      KeyLessTotal(kx, ky);
      KeyLessTotal(ky, kz);
      if KeyLess(kx, kz) {
        if KeyLess(ky, kx) && KeyLess(kz, ky) {
          KeyLessTransitive(kz, ky, kx);
          KeyLessAsymmetric(kx, kz);
        } else if KeyLess(ky, kx) {
          KeyLessAsymmetric(kx, ky);
        } else if KeyLess(kz, ky) {
          KeyLessAsymmetric(ky, kz);
        } else {
          KeyLessAsymmetric(kx, kx);
        }
      }
    }
  }

  /** `sorted(keys, key=natural_keys)`. */
  function NaturalSort(keys: seq<string>): (r: seq<string>)
    ensures Sorting.SortedBy(r, NaturalLess)
    ensures multiset(r) == multiset(keys)
  {
    NaturalLessStrictWeak();
    Sorting.SortBy(keys, NaturalLess)
  }
}
