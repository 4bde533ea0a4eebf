/**
 * The few Python built-ins the plug-in modules lean on, with CPython's
 * semantics: `str.strip()`, `str.split(sep)`, `int(text)`, `int(a / b)` on
 * integers, slice bounds (`xs[start:stop]`) and list indexing (`xs[i]`).
 */
module Py {
  import opened Wrappers

  /** The ASCII characters `str.isspace()` accepts: `\t`..`\r`, `\x1c`..`\x1f` and the space. */
  predicate IsSpace(c: char) {
    (9 <= c as int <= 13) || (28 <= c as int <= 32)
  }

  function TrimLeft(s: string): (r: string)
    ensures |r| <= |s| && r == s[|s| - |r|..]
    ensures forall i :: 0 <= i < |s| - |r| ==> IsSpace(s[i])
    ensures r == [] || !IsSpace(r[0])
  {
    if |s| > 0 && IsSpace(s[0]) then TrimLeft(s[1..]) else s
  }

  function TrimRight(s: string): (r: string)
    ensures |r| <= |s| && r == s[..|r|]
    ensures forall i :: |r| <= i < |s| ==> IsSpace(s[i])
    ensures r == [] || !IsSpace(r[|r| - 1])
  {
    if |s| > 0 && IsSpace(s[|s| - 1]) then TrimRight(s[..|s| - 1]) else s
  }

  /** `s.strip()`: `s` without its leading and trailing whitespace. */
  function Strip(s: string): (r: string)
    ensures r == [] || (!IsSpace(r[0]) && !IsSpace(r[|r| - 1]))
  {
    var l := TrimLeft(s);
    var r := TrimRight(l);
    assert r == [] || r[0] == l[0];
    r
  }

  /**
   * What `strip()` removes is whitespace only, from both ends: the result is
   * the piece of `s` starting after the leading whitespace, and only
   * whitespace follows it.
   */
  lemma StripSpan(s: string)
    ensures var r, a := Strip(s), |s| - |TrimLeft(s)|;
      && a + |r| <= |s| && (forall i :: 0 <= i < |r| ==> r[i] == s[a + i])
      && (forall i :: 0 <= i < a ==> IsSpace(s[i]))
      && (forall i :: a + |r| <= i < |s| ==> IsSpace(s[i]))
  {
    var l := TrimLeft(s);
    var r := TrimRight(l);
    assert Strip(s) == r;
    var a := |s| - |l|;
    assert l == s[a..];
    StripPiece(s, a, l, r);
  }

  /** Every character of `s` is whitespace or a character of its strip. */
  lemma StripChars(s: string)
    ensures forall i :: 0 <= i < |s| ==> IsSpace(s[i]) || s[i] in Strip(s)
  {
    StripSpan(s);
    var r, a := Strip(s), |s| - |TrimLeft(s)|;
    forall i | 0 <= i < |s| && !IsSpace(s[i]) ensures s[i] in r {
      assert a <= i < a + |r|;
      assert r[i - a] == s[i];
    }
  }

  /**
   * The two trims together: a suffix `l == s[a..]` after whitespace, and a
   * prefix `r` of it followed only by whitespace, make `r` a piece of `s`
   * with only whitespace around it.
   */
  lemma StripPiece(s: string, a: int, l: string, r: string)
    requires 0 <= a <= |s| && l == s[a..] && (forall i :: 0 <= i < a ==> IsSpace(s[i]))
    requires |r| <= |l| && r == l[..|r|] && (forall k :: |r| <= k < |l| ==> IsSpace(l[k]))
    ensures a + |r| <= |s| && (forall i :: 0 <= i < |r| ==> r[i] == s[a + i])
    ensures forall i :: 0 <= i < a ==> IsSpace(s[i])
    ensures forall i :: a + |r| <= i < |s| ==> IsSpace(s[i])
  {
    forall i | a + |r| <= i < |s| ensures IsSpace(s[i]) {
      assert s[i] == l[i - a];
    }
  }

  /** Text with no whitespace at either end is its own strip. */
  lemma StripStripped(s: string)
    requires s == [] || (!IsSpace(s[0]) && !IsSpace(s[|s| - 1]))
    ensures Strip(s) == s
  {
    assert TrimLeft(s) == s;
  }

  /** Stripping twice is stripping once. */
  lemma StripIdempotent(s: string)
    ensures Strip(Strip(s)) == Strip(s)
  {
    StripStripped(Strip(s));
  }

  /** `s.split(sep)` for a one-character separator: the pieces between separators, always at least one. */
  function Split(s: string, sep: char): (parts: seq<string>)
    ensures |parts| >= 1
    ensures forall i :: 0 <= i < |parts| ==> sep !in parts[i]
  {
    if |s| == 0 then [""]
    else
      var rest := Split(s[1..], sep);
      if s[0] == sep then [""] + rest
      else [[s[0]] + rest[0]] + rest[1..]
  }

  /** `sep.join(parts)`, the inverse of Split. */
  function Join(parts: seq<string>, sep: char): string
    requires |parts| >= 1
  {
    if |parts| == 1 then parts[0] else parts[0] + [sep] + Join(parts[1..], sep)
  }

  /** Joining the pieces of a split gives the original text back. */
  lemma {:induction false} JoinSplit(s: string, sep: char)
    ensures Join(Split(s, sep), sep) == s
  {
    if |s| > 0 {
      var rest := Split(s[1..], sep);
      JoinSplit(s[1..], sep);
      if s[0] == sep {
        assert ([""] + rest)[1..] == rest;
      } else if |rest| > 1 {
        assert ([[s[0]] + rest[0]] + rest[1..])[1..] == rest[1..];
        assert [s[0]] + Join(rest, sep) == s;
      } else {
        assert [s[0]] + rest[0] == s;
      }
    }
  }

  lemma {:induction false} SplitWithoutSep(a: string, sep: char)
    requires sep !in a
    ensures Split(a, sep) == [a]
  {
    if |a| > 0 {
      SplitWithoutSep(a[1..], sep);
      assert [a[0]] + a[1..] == a;
    }
  }

  lemma {:induction false} SplitAfterSep(a: string, b: string, sep: char)
    requires sep !in a
    ensures Split(a + [sep] + b, sep) == [a] + Split(b, sep)
  {
    var s := a + [sep] + b;
    if |a| == 0 {
      assert s[1..] == b;
    } else {
      assert s[1..] == a[1..] + [sep] + b;
      SplitAfterSep(a[1..], b, sep);
      assert [a[0]] + a[1..] == a;
    }
  }

  /** A join starts with its first piece. */
  lemma JoinStart(parts: seq<string>, sep: char)
    requires |parts| >= 1
    ensures |Join(parts, sep)| >= |parts[0]| && Join(parts, sep)[..|parts[0]|] == parts[0]
  {
  }

  /** A join ends with its last piece. */
  lemma {:induction false} JoinLast(parts: seq<string>, sep: char)
    requires |parts| >= 1
    ensures var j, last := Join(parts, sep), parts[|parts| - 1]; |j| >= |last| && j[|j| - |last|..] == last
  {
    if |parts| > 1 {
      JoinLast(parts[1..], sep);
      assert parts[1..][|parts| - 2] == parts[|parts| - 1];
    }
  }

  /** The first piece of a split is no longer than the text. */
  lemma {:induction false} SplitFirstShort(s: string, sep: char)
    ensures |Split(s, sep)[0]| <= |s|
  {
    if |s| > 0 {
      SplitFirstShort(s[1..], sep);
    }
  }

  /** Splitting a join of separator-free pieces gives the pieces back. */
  lemma {:induction false} SplitJoin(parts: seq<string>, sep: char)
    requires |parts| >= 1
    requires forall i :: 0 <= i < |parts| ==> sep !in parts[i]
    ensures Split(Join(parts, sep), sep) == parts
  {
    if |parts| == 1 {
      SplitWithoutSep(parts[0], sep);
    } else {
      SplitJoin(parts[1..], sep);
      SplitAfterSep(parts[0], Join(parts[1..], sep), sep);
      assert [parts[0]] + parts[1..] == parts;
    }
  }

  predicate IsDigit(c: char) {
    '0' <= c <= '9'
  }

  /** The digit body `int()` accepts in base 10: digits, single underscores only between digits. */
  predicate IsDigitRun(s: string) {
    && |s| > 0
    && IsDigit(s[0])
    && IsDigit(s[|s| - 1])
    && (forall i :: 0 <= i < |s| ==> IsDigit(s[i]) || s[i] == '_')
    && (forall i :: 0 <= i < |s| - 1 ==> s[i] == '_' ==> s[i + 1] != '_')
  }

  /** The value of a digit body, underscores ignored. */
  function DigitsValue(s: string): nat
    requires forall i :: 0 <= i < |s| ==> IsDigit(s[i]) || s[i] == '_'
  {
    if |s| == 0 then 0
    else if s[|s| - 1] == '_' then DigitsValue(s[..|s| - 1])
    else
      assert IsDigit(s[|s| - 1]);
      DigitsValue(s[..|s| - 1]) * 10 + (s[|s| - 1] as int - '0' as int)
  }

  /**
   * `int(s)` on a string: surrounding whitespace, an optional sign, then a
   * digit body; `None` is the `ValueError` every other string raises.
   */
  function ParseInt(s: string): (r: Option<int>)
    ensures Strip(s) == [] ==> r == None
    ensures r.Some? ==> forall i :: 0 <= i < |s| ==> IsSpace(s[i]) || IsDigit(s[i]) || s[i] in "+-_"
  {
    var t := Strip(s);
    StripChars(s);
    if |t| > 0 && (t[0] == '+' || t[0] == '-') then
      if IsDigitRun(t[1..]) then
        var v: int := DigitsValue(t[1..]);
        Some(if t[0] == '-' then -v else v)
      else None
    else if IsDigitRun(t) then Some(DigitsValue(t))
    else None
  }

  function DigitChar(d: nat): (c: char)
    requires d < 10
    ensures IsDigit(c) && c as int - '0' as int == d
  {
    ('0' as int + d) as char
  }

  /** `str(n)` for a natural number: its decimal digits, no leading zeros. */
  function ShowNat(n: nat): string
  {
    if n < 10 then [DigitChar(n)] else ShowNat(n / 10) + [DigitChar(n % 10)]
  }

  /** `str(n)` for an integer. */
  function Show(n: int): string
  {
    if n < 0 then "-" + ShowNat(-n) else ShowNat(n)
  }

  lemma {:induction false} ShowNatDigits(n: nat)
    ensures IsDigitRun(ShowNat(n)) && DigitsValue(ShowNat(n)) == n
  {
    if n >= 10 {
      ShowNatDigits(n / 10);
      var p := ShowNat(n / 10);
      var s := p + [DigitChar(n % 10)];
      assert s[..|s| - 1] == p;
    }
  }

  /** `int(str(n)) == n`. */
  lemma ParseShow(n: int)
    ensures ParseInt(Show(n)) == Some(n)
  {
    var s := Show(n);
    ShowNatDigits(if n < 0 then -n else n);
    assert !IsSpace(s[0]) && !IsSpace(s[|s| - 1]);
    assert TrimLeft(s) == s;
    assert Strip(s) == s;
    if n < 0 {
      assert s[1..] == ShowNat(-n);
    }
  }

  /** A string with a character that is no digit, sign, underscore or space does not parse. */
  lemma ParseIntRejects(s: string, i: int)
    requires 0 <= i < |s| && !IsSpace(s[i]) && !IsDigit(s[i]) && s[i] !in "+-_"
    ensures ParseInt(s) == None
  {
  }

  function Abs(x: int): nat {
    if x < 0 then -x else x
  }

  /**
   * `int(a / b)` on integers, computed as the exact quotient truncated
   * toward zero. Python divides in floating point first, which this does
   * not capture (see the README).
   */
  function TruncDiv(a: int, b: int): int
    requires b != 0
  {
    if (a < 0) == (b < 0) then Abs(a) / Abs(b) else -(Abs(a) / Abs(b))
  }

  /**
   * Truncation toward zero: `q * b` lies between 0 and `a`, and what is left
   * over is smaller than the divisor.
   */
  lemma TruncDivBounds(a: int, b: int)
    requires b != 0
    ensures 0 <= TruncDiv(a, b) * b <= a || a <= TruncDiv(a, b) * b <= 0
    ensures Abs(a - TruncDiv(a, b) * b) < Abs(b)
  {
    var n := Abs(b);
    var k := Abs(a) / n;
    var q := TruncDiv(a, b);
    var kn := NatDivBounds(Abs(a), n);
    if a >= 0 {
      if b > 0 { SameSigns(k, n); } else { OppositeSigns(k, n); }
      assert q * b == kn;
    } else {
      if b > 0 { OppositeSigns(k, n); } else { SameSigns(k, n); }
      assert q * b == -kn;
    }
  }

  /** Euclidean division of naturals: `(x / n) * n` is at most `x` and within `n` of it. */
  lemma NatDivBounds(x: int, n: int) returns (kn: int)
    requires x >= 0 && n > 0
    ensures kn == (x / n) * n && 0 <= kn <= x && x - kn < n
  {
    kn := (x / n) * n;
  }

  lemma SameSigns(k: int, n: int)
    ensures k * n == (-k) * (-n)
  {
  }

  lemma OppositeSigns(k: int, n: int)
    ensures (-k) * n == -(k * n) && k * (-n) == -(k * n)
  {
  }

  lemma TruncDivByOne(a: int)
    ensures TruncDiv(a, 1) == a
  {
  }

  /** A slice `xs[lo:hi]` after CPython has adjusted its bounds. */
  datatype Span = Span(lo: nat, hi: nat) {
    function Length(): nat {
      if lo <= hi then hi - lo else 0
    }
  }

  /** One slice bound adjusted to a sequence of `len` items: negative counts from the end, then clamp. */
  function SliceIndex(i: int, len: nat): (r: nat)
    ensures r <= len
  {
    if i < 0 then (if i + len < 0 then 0 else i + len)
    else if i > len then len else i
  }

  /** The items `xs[start:stop]` picks from `len` items; a stop at or before the start picks none. */
  function SliceRange(start: int, stop: int, len: nat): (s: Span)
    ensures s.lo <= s.hi <= len
  {
    var lo := SliceIndex(start, len);
    var hi := SliceIndex(stop, len);
    Span(lo, if hi < lo then lo else hi)
  }

  /** A bound as Python's documentation states it: a negative one counts from the end. */
  function Relative(i: int, len: nat): int {
    if i < 0 then i + len else i
  }

  /** The slice picks exactly the items `k` with `start <= k < stop` once negative bounds count from the end. */
  lemma SlicePicks(start: int, stop: int, len: nat, k: int)
    requires 0 <= k < len
    ensures var s := SliceRange(start, stop, len);
      s.lo <= k < s.hi <==> Relative(start, len) <= k < Relative(stop, len)
  {
  }

  lemma SliceWithin(start: int, stop: int, len: nat)
    requires 0 <= start <= stop <= len
    ensures SliceRange(start, stop, len) == Span(start, stop)
  {
  }

  /** `xs[i]` on a list of `len` items: a negative index counts from the end; `None` is the `IndexError`. */
  function ListIndex(i: int, len: nat): (r: Option<nat>)
    ensures r.Some? <==> -(len as int) <= i < len
    ensures r.Some? ==> r.value < len && (if i < 0 then r.value == i + len else r.value == i)
  {
    if 0 <= i < len then Some(i)
    else if -(len as int) <= i < 0 then Some(i + len)
    else None
  }
}
