/** Python string operations the core relies on: decimal digits, `str` and
    `int` on integers, `split`, slicing. */
module Text {
  import opened Values

  predicate IsDigit(c: char)
  {
    '0' <= c <= '9'
  }

  predicate AllDigits(s: string)
  {
    forall i :: 0 <= i < |s| ==> IsDigit(s[i])
  }

  predicate HasDigit(s: string)
  {
    exists i :: 0 <= i < |s| && IsDigit(s[i])
  }

  /** `s.isdigit()` (ASCII digits only). */
  predicate IsDecimal(s: string)
  {
    |s| > 0 && AllDigits(s)
  }

  /** A decimal numeral as `str(n)` prints it: no leading zero. */
  predicate Canonical(s: string)
  {
    IsDecimal(s) && (s[0] == '0' ==> |s| == 1)
  }

  function DigitValue(c: char): nat
    requires IsDigit(c)
  {
    (c as int - '0' as int) as nat
  }

  function DigitChar(d: nat): (c: char)
    requires d < 10
    ensures IsDigit(c) && DigitValue(c) == d
  {
    ('0' as int + d) as char
  }

  /** The number a string of decimal digits denotes. */
  function DecimalValue(s: string): nat
    requires AllDigits(s)
  {
    if s == [] then 0 else DecimalValue(s[..|s| - 1]) * 10 + DigitValue(s[|s| - 1])
  }

  /** `str(n)` for a natural number. */
  function NatToString(n: nat): (r: string)
    ensures Canonical(r) && DecimalValue(r) == n
    ensures |r| == 1 <==> n < 10
  {
    if n < 10 then [DigitChar(n)]
    else
      var p := NatToString(n / 10);
      assert p[..|p|] == p;
      p + [DigitChar(n % 10)]
  }

  lemma {:induction false} NonZeroLeadingDigit(s: string)
    requires IsDecimal(s) && s[0] != '0'
    ensures DecimalValue(s) >= 1
  {
    if |s| > 1 {
      NonZeroLeadingDigit(s[..|s| - 1]);
    }
  }

  /** Printing the value of a canonical numeral gives the numeral back. */
  lemma {:induction false} DecimalRoundTrip(s: string)
    requires Canonical(s)
    ensures NatToString(DecimalValue(s)) == s
  {
    if |s| > 1 {
      var p := s[..|s| - 1];
      NonZeroLeadingDigit(p);
      DecimalRoundTrip(p);
      assert DecimalValue(s) / 10 == DecimalValue(p);
      assert p + [s[|s| - 1]] == s;
    }
  }

  /** Two canonical numerals are equal exactly when their values are. */
  lemma CanonicalInjective(s: string, t: string)
    requires Canonical(s) && Canonical(t)
    ensures s == t <==> DecimalValue(s) == DecimalValue(t)
  {
    if DecimalValue(s) == DecimalValue(t) {
      DecimalRoundTrip(s);
      DecimalRoundTrip(t);
    }
  }

  /** `str(i)` for any integer. */
  function IntToString(i: int): string
  {
    if i < 0 then "-" + NatToString(-i) else NatToString(i)
  }

  /** `int(s)` on a string: an optional sign followed by ASCII digits. */
  function ParseInt(s: string): (r: Result<int>)
  {
    if |s| > 0 && (s[0] == '-' || s[0] == '+') && IsDecimal(s[1..]) then
      var magnitude: int := DecimalValue(s[1..]);
      Ok(if s[0] == '-' then -magnitude else magnitude)
    else if IsDecimal(s) then Ok(DecimalValue(s))
    else Err(ValueError)
  }

  /** `int()` reads back what `str()` printed. */
  lemma ParseIntRoundTrip(i: int)
    ensures ParseInt(IntToString(i)) == Ok(i)
  {
    if i < 0 {
      var p := NatToString(-i);
      assert ("-" + p)[1..] == p;
    }
  }

  /** `s.split(sep)`: the pieces between occurrences of `sep`, empty ones included. */
  function SplitOn(s: string, sep: char): (r: seq<string>)
    ensures |r| >= 1
    ensures forall k :: 0 <= k < |r| ==> sep !in r[k]
  {
    if s == [] then [""]
    else
      var rest := SplitOn(s[1..], sep);
      if s[0] == sep then [""] + rest
      else [[s[0]] + rest[0]] + rest[1..]
  }

  /** The inverse of `SplitOn`: `sep.join(parts)`. */
  function Join(parts: seq<string>, sep: char): string
    requires |parts| >= 1
  {
    if |parts| == 1 then parts[0] else parts[0] + [sep] + Join(parts[1..], sep)
  }

  lemma {:induction false} SplitJoin(s: string, sep: char)
    ensures Join(SplitOn(s, sep), sep) == s
  {
    if s != [] {
      SplitJoin(s[1..], sep);
      var rest := SplitOn(s[1..], sep);
      if s[0] == sep {
        assert ([""] + rest)[1..] == rest;
      } else {
        var r := [[s[0]] + rest[0]] + rest[1..];
        if |rest| > 1 {
          assert r[1..] == rest[1..];
          assert Join(r, sep) == [s[0]] + rest[0] + [sep] + Join(rest[1..], sep);
        }
      }
    }
  }

  /** Splitting a piece free of `sep`, followed by `sep` and a tail. */
  lemma {:induction false} SplitOnPrefix(a: string, sep: char, b: string)
    requires sep !in a
    ensures SplitOn(a + [sep] + b, sep) == [a] + SplitOn(b, sep)
  {
    if a == [] {
      assert ([] + [sep] + b)[1..] == b;
    } else {
      assert (a + [sep] + b)[1..] == a[1..] + [sep] + b;
      SplitOnPrefix(a[1..], sep, b);
      assert [a[0]] + a[1..] == a;
    }
  }

  lemma {:induction false} SplitOnFree(a: string, sep: char)
    requires sep !in a
    ensures SplitOn(a, sep) == [a]
  {
    if a != [] {
      SplitOnFree(a[1..], sep);
      assert [a[0]] + a[1..] == a;
    }
  }

  /** `s.split(sep)` has more than one piece exactly when `sep` occurs in `s`. */
  lemma SplitOnMany(s: string, sep: char)
    ensures |SplitOn(s, sep)| > 1 <==> sep in s
  {
    if sep in s {
      SplitJoin(s, sep);
    } else {
      SplitOnFree(s, sep);
    }
  }

  /** `s.split(sep)` on a join of parts that hold no `sep` gives the parts back. */
  lemma {:induction false} JoinSplit(parts: seq<string>, sep: char)
    requires |parts| >= 1
    requires forall k :: 0 <= k < |parts| ==> sep !in parts[k]
    ensures SplitOn(Join(parts, sep), sep) == parts
  {
    if |parts| == 1 {
      SplitOnFree(parts[0], sep);
    } else {
      JoinSplit(parts[1..], sep);
      SplitOnPrefix(parts[0], sep, Join(parts[1..], sep));
      assert [parts[0]] + parts[1..] == parts;
    }
  }

  /** `s.split(sep)[-1]`: the text after the last `sep`. */
  function LastPart(s: string, sep: char): string
  {
    var parts := SplitOn(s, sep);
    parts[|parts| - 1]
  }

  /** `s.split(sep)[-1]` is the longest suffix of `s` without `sep`: all
      of `s`, or the text after a `sep`. */
  lemma {:induction false} LastPartSuffix(s: string, sep: char)
    ensures var r := LastPart(s, sep);
      && |r| <= |s| && s[|s| - |r|..] == r
      && (|r| < |s| ==> s[|s| - |r| - 1] == sep)
  {
    if s != [] {
      var t := s[1..];
      LastPartSuffix(t, sep);
      var rest := SplitOn(t, sep);
      SplitOnMany(t, sep);
      if s[0] == sep {
        assert LastPart(s, sep) == LastPart(t, sep);
      } else if |rest| > 1 {
        assert LastPart(s, sep) == LastPart(t, sep);
        assert sep !in LastPart(t, sep);
        assert |LastPart(t, sep)| < |t|;
      } else {
        SplitOnFree(t, sep);
        assert LastPart(s, sep) == [s[0]] + t;
        assert [s[0]] + t == s;
      }
    }
  }

  /** The text after the last `sep` is `s.split(sep)[-1]`. */
  lemma {:induction false} LastPartAfter(x: string, sep: char, b: string)
    requires sep !in b
    ensures |SplitOn(x + [sep] + b, sep)| >= 2
    ensures LastPart(x + [sep] + b, sep) == b
  {
    if x == [] {
      assert ([] + [sep] + b)[1..] == b;
      SplitOnFree(b, sep);
    } else {
      assert (x + [sep] + b)[1..] == x[1..] + [sep] + b;
      LastPartAfter(x[1..], sep, b);
    }
  }

  /** The characters Python's `str.split()` treats as whitespace: the
      ASCII controls 9-13 and 28-31, the space, and the Unicode spaces and
      line and paragraph separators. */
  predicate IsSpace(c: char)
  {
    var n := c as int;
    || 9 <= n <= 13 || 28 <= n <= 32
    || n == 0x85 || n == 0xA0 || n == 0x1680
    || 0x2000 <= n <= 0x200A || n == 0x2028 || n == 0x2029
    || n == 0x202F || n == 0x205F || n == 0x3000
  }

  predicate IsBlank(c: char)
  {
    c == ' '
  }

  /** The number of separators `s` starts with. */
  function SepLen(s: string, isSep: char -> bool): (n: nat)
    ensures n <= |s|
    ensures forall j :: 0 <= j < n ==> isSep(s[j])
    ensures n < |s| ==> !isSep(s[n])
  {
    if s == [] || !isSep(s[0]) then 0 else 1 + SepLen(s[1..], isSep)
  }

  /** The number of non-separators `s` starts with. */
  function RunLen(s: string, isSep: char -> bool): (n: nat)
    ensures n <= |s|
    ensures forall j :: 0 <= j < n ==> !isSep(s[j])
    ensures n < |s| ==> isSep(s[n])
  {
    if s == [] || isSep(s[0]) then 0 else 1 + RunLen(s[1..], isSep)
  }

  /** The non-empty pieces between separator characters: `s.split()` when the
      separators are whitespace, `filter(None, s.split(" "))` for spaces.
      TokensAreRuns shows they are the maximal runs of `s` in order. */
  function Tokens(s: string, isSep: char -> bool): (r: seq<string>)
    ensures forall k :: 0 <= k < |r| ==> |r[k]| > 0
    ensures forall k, j :: 0 <= k < |r| && 0 <= j < |r[k]| ==> !isSep(r[k][j])
    decreases |s|
  {
    var a := SepLen(s, isSep);
    if a == |s| then []
    else
      var run := RunLen(s[a..], isSep);
      assert s[a..][0] == s[a];
      var c := a + run;
      assert forall j :: 0 <= j < run ==> s[a..c][j] == s[a..][j];
      [s[a..c]] + Tokens(s[c..], isSep)
  }

  /** The runs of separators around and between the tokens; the first and
      the last may be empty. */
  function Gaps(s: string, isSep: char -> bool): seq<string>
    decreases |s|
  {
    var a := SepLen(s, isSep);
    if a == |s| then [s]
    else
      var run := RunLen(s[a..], isSep);
      assert s[a..][0] == s[a];
      [s[..a]] + Gaps(s[a + run..], isSep)
  }

  /** `gaps[0] + pieces[0] + gaps[1] + ... + pieces[n-1] + gaps[n]`. */
  function Weave(gaps: seq<string>, pieces: seq<string>): string
    requires |gaps| == |pieces| + 1
    decreases |pieces|
  {
    if pieces == [] then gaps[0] else gaps[0] + pieces[0] + Weave(gaps[1..], pieces[1..])
  }

  /** `s` is its gaps and its tokens, alternating: the gaps hold only
      separators and those between two tokens are not empty, so the tokens
      are exactly the maximal runs of non-separators of `s`, in order. */
  lemma TokensAreRuns(s: string, isSep: char -> bool)
    ensures var g := Gaps(s, isSep);
      var r := Tokens(s, isSep);
      && |g| == |r| + 1
      && Weave(g, r) == s
      && (forall i :: 0 <= i < |g| ==> AllSeps(g[i], isSep))
      && (forall i :: 0 < i < |r| ==> |g[i]| > 0)
  {
    WeaveRuns(s, isSep);
    GapsAreSeps(s, isSep);
    InnerGaps(s, isSep);
  }

  /** Where the first token of `s` starts and ends. */
  lemma TokensStep(s: string, isSep: char -> bool)
    requires SepLen(s, isSep) < |s|
    ensures var a := SepLen(s, isSep);
      var c := a + RunLen(s[a..], isSep);
      && a < c <= |s|
      && (c < |s| ==> isSep(s[c]))
      && s == s[..a] + s[a..c] + s[c..]
  {
    var a := SepLen(s, isSep);
    var run := RunLen(s[a..], isSep);
    RunEnd(s, isSep, a, run);
    Slices(s, a, a + run);
  }

  lemma TokensUnfold(s: string, isSep: char -> bool, a: nat, c: nat)
    requires a == SepLen(s, isSep) < |s| && c == a + RunLen(s[a..], isSep)
    ensures Tokens(s, isSep) == [s[a..c]] + Tokens(s[c..], isSep)
  {
  }

  /** One separator between two other characters gives two tokens. */
  lemma TokensAroundSep(x: char, c: char, y: char, isSep: char -> bool)
    requires !isSep(x) && isSep(c) && !isSep(y)
    ensures Tokens([x, c, y], isSep) == [[x], [y]]
  {
    var s := [x, c, y];
    assert SepLen(s, isSep) == 0;
    assert RunLen(s, isSep) == 1;
    TokensUnfold(s, isSep, 0, 1);
    var u := s[1..];
    assert SepLen(u, isSep) == 1;
    assert RunLen(u[1..], isSep) == 1;
    TokensUnfold(u, isSep, 1, 2);
    assert u[2..] == [];
    assert Tokens(u[2..], isSep) == [];
    assert u[1..2] == [y];
    assert Tokens(u, isSep) == [[y]];
    assert s[0..1] == [x];
  }

  lemma GapsUnfold(s: string, isSep: char -> bool, a: nat, c: nat)
    requires a == SepLen(s, isSep) < |s| && c == a + RunLen(s[a..], isSep)
    ensures Gaps(s, isSep) == [s[..a]] + Gaps(s[c..], isSep)
  {
  }

  lemma RunEnd(s: string, isSep: char -> bool, a: nat, run: nat)
    requires a < |s| && !isSep(s[a]) && run == RunLen(s[a..], isSep)
    ensures 0 < run && a + run <= |s|
    ensures a + run < |s| ==> isSep(s[a + run])
  {
    assert s[a..][0] == s[a];
    if a + run < |s| {
      assert s[a..][run] == s[a + run];
    }
  }

  lemma Slices(s: string, a: nat, c: nat)
    requires a <= c <= |s|
    ensures s == s[..a] + s[a..c] + s[c..]
  {
  }

  lemma WeaveCons(x: string, y: string, g: seq<string>, r: seq<string>)
    requires |g| == |r| + 1
    ensures Weave([x] + g, [y] + r) == x + y + Weave(g, r)
  {
    assert ([x] + g)[1..] == g && ([y] + r)[1..] == r;
  }

  lemma {:induction false} WeaveRuns(s: string, isSep: char -> bool)
    ensures |Gaps(s, isSep)| == |Tokens(s, isSep)| + 1
    ensures Weave(Gaps(s, isSep), Tokens(s, isSep)) == s
    decreases |s|
  {
    if SepLen(s, isSep) < |s| {
      TokensStep(s, isSep);
      var a := SepLen(s, isSep);
      var c := a + RunLen(s[a..], isSep);
      TokensUnfold(s, isSep, a, c);
      GapsUnfold(s, isSep, a, c);
      WeaveRuns(s[c..], isSep);
      WeaveCons(s[..a], s[a..c], Gaps(s[c..], isSep), Tokens(s[c..], isSep));
    }
  }

  /** Every character of `x` is a separator. */
  predicate AllSeps(x: string, isSep: char -> bool)
  {
    forall j :: 0 <= j < |x| ==> isSep(x[j])
  }

  lemma LeadingSeps(s: string, isSep: char -> bool)
    ensures AllSeps(s[..SepLen(s, isSep)], isSep)
  {
    var a := SepLen(s, isSep);
    assert forall j :: 0 <= j < a ==> s[..a][j] == s[j];
  }

  lemma {:induction false} GapsAreSeps(s: string, isSep: char -> bool)
    ensures forall i :: 0 <= i < |Gaps(s, isSep)| ==> AllSeps(Gaps(s, isSep)[i], isSep)
    decreases |s|
  {
    var a := SepLen(s, isSep);
    LeadingSeps(s, isSep);
    if a < |s| {
      TokensStep(s, isSep);
      var c := a + RunLen(s[a..], isSep);
      GapsUnfold(s, isSep, a, c);
      GapsAreSeps(s[c..], isSep);
      var g, g' := Gaps(s, isSep), Gaps(s[c..], isSep);
      assert g == [s[..a]] + g';
      assert forall i :: 0 < i < |g| ==> g[i] == g'[i - 1];
    } else {
      assert s[..a] == s;
    }
  }

  lemma {:induction false} InnerGaps(s: string, isSep: char -> bool)
    ensures |Gaps(s, isSep)| == |Tokens(s, isSep)| + 1
    ensures forall i :: 0 < i < |Tokens(s, isSep)| ==> |Gaps(s, isSep)[i]| > 0
    decreases |s|
  {
    WeaveRuns(s, isSep);
    var a := SepLen(s, isSep);
    if a < |s| {
      TokensStep(s, isSep);
      var c := a + RunLen(s[a..], isSep);
      TokensUnfold(s, isSep, a, c);
      GapsUnfold(s, isSep, a, c);
      InnerGaps(s[c..], isSep);
      var g, r := Gaps(s, isSep), Tokens(s, isSep);
      forall i | 0 < i < |r|
        ensures |g[i]| > 0
      {
        assert g[i] == Gaps(s[c..], isSep)[i - 1];
        if i == 1 {
          assert |Tokens(s[c..], isSep)| > 0;
          GapBeforeToken(s, isSep, c);
        }
      }
    }
  }

  /** After a run that ends before the end of `s`, the next gap starts with
      the separator that ended the run. */
  lemma GapBeforeToken(s: string, isSep: char -> bool, c: nat)
    requires c < |s| && isSep(s[c])
    ensures |Gaps(s[c..], isSep)[0]| > 0
  {
    assert s[c..][0] == s[c];
  }

  /** `s[:n]`. */
  function Take(s: string, n: nat): (r: string)
    ensures |r| <= n && |r| <= |s| && r == s[..|r|]
    ensures |s| <= n ==> r == s
    ensures |s| > n ==> |r| == n
  {
    if |s| <= n then s else s[..n]
  }

  /** `s[:-1]`: every character but the last. */
  function DropLast(s: string): string
  {
    if s == [] then [] else s[..|s| - 1]
  }

  /** `str * n` and `list * n`: repetition, empty for `n <= 0`. */
  function Repeat<T>(s: seq<T>, n: int): (r: seq<T>)
    ensures n >= 0 ==> |r| == |s| * n
    decreases if n < 0 then 0 else n
  {
    if n <= 0 then [] else s + Repeat(s, n - 1)
  }
}
