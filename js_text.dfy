/** The pieces of JavaScript's string and number behaviour that the editor relies on:
    `trim`, `split`, `join`, `parseInt(_, 10)`, number-to-string and the `%` operator.
    Strings are sequences of Unicode scalar values. */
module JsText {
  import opened Wrappers

  /** The WhiteSpace and LineTerminator code points that `String.prototype.trim`
      and `parseInt` skip. */
  predicate IsWhitespace(c: char) {
    c == ' ' || c == '\t' || c == '\n' || c == '\r' || c == '\U{B}' || c == '\U{C}'
    || c == '\U{A0}' || c == '\U{FEFF}' || c == '\U{1680}' || ('\U{2000}' <= c <= '\U{200A}')
    || c == '\U{2028}' || c == '\U{2029}' || c == '\U{202F}' || c == '\U{205F}' || c == '\U{3000}'
  }

  /** The ASCII whitespace that a DOM class token may not contain. */
  predicate IsAsciiWhitespace(c: char) {
    c == ' ' || c == '\t' || c == '\n' || c == '\r' || c == '\U{C}'
  }

  /** A string that `trim` leaves as it is. */
  predicate Trimmed(s: string) {
    s == [] || (!IsWhitespace(s[0]) && !IsWhitespace(s[|s| - 1]))
  }

  /** A string of whitespace only. */
  predicate AllWhitespace(s: string) {
    forall k :: 0 <= k < |s| ==> IsWhitespace(s[k])
  }

  /** `trimStart`: the longest whitespace prefix goes. */
  function TrimStart(s: string): (r: string)
    ensures |r| <= |s| && r == s[|s| - |r|..]
    ensures AllWhitespace(s[..|s| - |r|])
    ensures r == [] || !IsWhitespace(r[0])
    ensures s != [] && !IsWhitespace(s[0]) ==> r == s
  {
    if s != [] && IsWhitespace(s[0]) then
      var r := TrimStart(s[1..]);
      var w := s[1..][..|s| - 1 - |r|];
      assert s[..|s| - |r|] == [s[0]] + w;
      WhitespaceAround(s[0], w);
      r
    else s
  }

  /** `trimEnd`: the longest whitespace suffix goes. */
  function TrimEnd(s: string): (r: string)
    ensures |r| <= |s| && r == s[..|r|]
    ensures AllWhitespace(s[|r|..])
    ensures r == [] || !IsWhitespace(r[|r| - 1])
    ensures s != [] && !IsWhitespace(s[|s| - 1]) ==> r == s
  {
    if s != [] && IsWhitespace(s[|s| - 1]) then
      var r := TrimEnd(s[..|s| - 1]);
      var w := s[..|s| - 1][|r|..];
      assert s[|r|..] == w + [s[|s| - 1]];
      WhitespaceAround(s[|s| - 1], w);
      r
    else s
  }

  /** `s.trim()`: the whitespace at both ends goes, and only that. */
  function Trim(s: string): (r: string)
    ensures Trimmed(r)
    ensures exists i :: Padded(s, i, r)
    ensures Trimmed(s) ==> r == s
  {
    TrimPadded(s);
    TrimEnd(TrimStart(s))
  }

  /** What `trimStart` and then `trimEnd` take away is whitespace. */
  lemma TrimPadded(s: string)
    ensures Padded(s, |s| - |TrimStart(s)|, TrimEnd(TrimStart(s)))
  {
    var t := TrimStart(s);
    var r := TrimEnd(t);
    var i := |s| - |t|;
    assert r == s[i..i + |r|] && s[i + |r|..] == t[|r|..];
  }

  /** A whitespace character before or after whitespace is whitespace. */
  lemma WhitespaceAround(c: char, w: string)
    requires IsWhitespace(c) && AllWhitespace(w)
    ensures AllWhitespace([c] + w) && AllWhitespace(w + [c])
  {
  }

  /** `s` is `r` with the whitespace `s[..i]` in front and whitespace after it. */
  predicate Padded(s: string, i: int, r: string) {
    0 <= i <= |s| - |r| && AllWhitespace(s[..i]) && r == s[i..i + |r|] && AllWhitespace(s[i + |r|..])
  }

  /** Whitespace in front of a trimmed string is what `trim` takes away. */
  lemma TrimAfterSpace(s: string)
    requires Trimmed(s)
    ensures Trim(" " + s) == s
  {
    assert (" " + s)[1..] == s;
  }

  /** `parts.join(sep)`. */
  function Join(parts: seq<string>, sep: string): string
  {
    if |parts| == 0 then ""
    else if |parts| == 1 then parts[0]
    else parts[0] + sep + Join(parts[1..], sep)
  }

  /** A joined string holds a character only if a piece or the separator does. */
  lemma {:induction false} JoinAvoids(parts: seq<string>, sep: string, ch: char)
    requires ch !in sep && forall k :: 0 <= k < |parts| ==> ch !in parts[k]
    ensures ch !in Join(parts, sep)
  {
    if |parts| > 1 {
      JoinAvoids(parts[1..], sep, ch);
      assert parts[0] + sep + Join(parts[1..], sep) == Join(parts, sep);
    }
  }

  /** Joining non-empty pieces starts with the first piece's first character and
      ends with the last piece's last character. */
  lemma {:induction false} JoinEnds(parts: seq<string>, sep: string)
    requires parts != [] && forall k :: 0 <= k < |parts| ==> parts[k] != []
    ensures Join(parts, sep) != []
    ensures Join(parts, sep)[0] == parts[0][0]
    ensures Join(parts, sep)[|Join(parts, sep)| - 1] == parts[|parts| - 1][|parts[|parts| - 1]| - 1]
  {
    if |parts| > 1 {
      JoinEnds(parts[1..], sep);
      var rest := Join(parts[1..], sep);
      assert Join(parts, sep) == (parts[0] + sep) + rest;
    }
  }

  /** Each line followed by a line feed: what repeated `+= line + '\n'` builds. */
  function Unlines(lines: seq<string>): string {
    if lines == [] then "" else lines[0] + "\n" + Unlines(lines[1..])
  }

  lemma {:induction false} UnlinesAppend(a: seq<string>, b: seq<string>)
    ensures Unlines(a + b) == Unlines(a) + Unlines(b)
  {
    if a == [] {
      assert a + b == b;
    } else {
      assert (a + b)[1..] == a[1..] + b;
      UnlinesAppend(a[1..], b);
      assert (a + b)[0] == a[0];
    }
  }

  /** Terminated lines are the lines joined, with one empty piece after the last line feed. */
  lemma {:induction false} UnlinesIsJoin(lines: seq<string>)
    ensures Unlines(lines) == Join(lines + [""], "\n")
  {
    if lines != [] {
      UnlinesIsJoin(lines[1..]);
      assert (lines + [""])[1..] == lines[1..] + [""];
    }
  }

  /** `sep` occurs in `x` at position `j`. */
  predicate OccursAt(x: string, sep: string, j: int) {
    0 <= j <= |x| - |sep| && x[j..j + |sep|] == sep
  }

  /** `s.split(sep)` for a non-empty separator: the string is cut at every
      occurrence of `sep`, found left to right without overlap. Joining the
      pieces with `sep` gives `s` back, and no piece holds `sep`. */
  function Split(s: string, sep: string): (r: seq<string>)
    requires sep != []
    ensures r != []
    ensures Join(r, sep) == s
    ensures forall k, j :: 0 <= k < |r| ==> !OccursAt(r[k], sep, j)
    decreases |s|
  {
    if |s| < |sep| then [s]
    else if s[..|sep|] == sep then
      var rest := Split(s[|sep|..], sep);
      assert s == sep + s[|sep|..];
      CleanCons("", rest, sep);
      [""] + rest
    else
      var rest := Split(s[1..], sep);
      assert s == [s[0]] + s[1..];
      assert Join([[s[0]] + rest[0]] + rest[1..], sep) == [s[0]] + Join(rest, sep) by {
        if |rest| > 1 {
          assert ([[s[0]] + rest[0]] + rest[1..])[1..] == rest[1..];
        }
      }
      FirstPieceClean(s, sep, rest);
      CleanCons([s[0]] + rest[0], rest[1..], sep);
      [[s[0]] + rest[0]] + rest[1..]
  }

  /** The first piece of a join is where the join starts. */
  lemma JoinStarts(parts: seq<string>, sep: string)
    requires parts != []
    ensures |parts[0]| <= |Join(parts, sep)| && Join(parts, sep)[..|parts[0]|] == parts[0]
  {
    if |parts| > 1 {
      assert Join(parts, sep) == parts[0] + (sep + Join(parts[1..], sep));
    }
  }

  /** A piece without `sep` in front of pieces without `sep`. */
  lemma CleanCons(p: string, tail: seq<string>, sep: string)
    requires sep != [] && forall j :: !OccursAt(p, sep, j)
    requires forall k, j :: 0 <= k < |tail| ==> !OccursAt(tail[k], sep, j)
    ensures forall k, j :: 0 <= k < |[p] + tail| ==> !OccursAt(([p] + tail)[k], sep, j)
  {
    forall k | 1 <= k < |[p] + tail|
      ensures ([p] + tail)[k] == tail[k - 1]
    {
    }
  }

  /** A character put in front of a piece without `sep` gives a piece without
      `sep`, when `s` does not start with `sep`. */
  lemma FirstPieceClean(s: string, sep: string, rest: seq<string>)
    requires sep != [] && |s| >= |sep| && s[..|sep|] != sep
    requires rest != [] && Join(rest, sep) == s[1..]
    requires forall j :: !OccursAt(rest[0], sep, j)
    ensures forall j :: !OccursAt([s[0]] + rest[0], sep, j)
  {
    var p := [s[0]] + rest[0];
    JoinStarts(rest, sep);
    assert p == s[..|p|];
    forall j
      ensures !OccursAt(p, sep, j)
    {
      if j == 0 && |sep| <= |p| {
        assert p[..|sep|] == s[..|sep|];
      } else if 0 < j <= |p| - |sep| {
        assert p[j..j + |sep|] == rest[0][j - 1..j - 1 + |sep|];
        assert !OccursAt(rest[0], sep, j - 1);
      }
    }
  }

  /** The separators the editor splits on (`"\n"`, `":"`, `", "`) end in a
      character that occurs nowhere else in them. */
  predicate LastIsUnique(sep: string) {
    sep != [] && forall j :: 0 <= j < |sep| - 1 ==> sep[j] != sep[|sep| - 1]
  }

  /** A piece that does not contain the separator's last character is cut off whole. */
  lemma {:induction false} SplitAfterPiece(x: string, sep: string, rest: string)
    requires LastIsUnique(sep) && sep[|sep| - 1] !in x
    ensures Split(x + sep + rest, sep) == [x] + Split(rest, sep)
    decreases |x|
  {
    var s := x + sep + rest;
    if x == [] {
      assert s[..|sep|] == sep && s[|sep|..] == rest;
    } else {
      assert s[|sep| - 1] != sep[|sep| - 1] by {
        if |sep| - 1 < |x| {
          assert s[|sep| - 1] == x[|sep| - 1];
        } else {
          assert s[|sep| - 1] == sep[|sep| - 1 - |x|];
        }
      }
      assert s[..|sep|] != sep;
      assert s[1..] == x[1..] + sep + rest;
      SplitAfterPiece(x[1..], sep, rest);
      assert [s[0]] + x[1..] == x;
    }
  }

  /** A string without the separator's last character is not cut at all. */
  lemma {:induction false} SplitWhole(x: string, sep: string)
    requires sep != [] && sep[|sep| - 1] !in x
    ensures Split(x, sep) == [x]
    decreases |x|
  {
    if |x| >= |sep| {
      assert x[|sep| - 1] in x;
      assert x[..|sep|] != sep;
      SplitWhole(x[1..], sep);
      assert [x[0]] + x[1..] == x;
    }
  }

  /** Cutting terminated lines at line feeds gives the lines back, and one
      empty piece after the last line feed. */
  lemma SplitUnlines(lines: seq<string>)
    requires forall k :: 0 <= k < |lines| ==> '\n' !in lines[k]
    ensures Split(Unlines(lines), "\n") == lines + [""]
  {
    var parts := lines + [""];
    forall k | 0 <= k < |parts|
      ensures '\n' !in parts[k]
    {
      if k < |lines| {
        assert parts[k] == lines[k];
      }
    }
    UnlinesIsJoin(lines);
    SplitOfJoin(parts, "\n");
  }

  /** Splitting undoes joining when no piece holds the separator's last character. */
  lemma {:induction false} SplitOfJoin(parts: seq<string>, sep: string)
    requires parts != [] && LastIsUnique(sep)
    requires forall k :: 0 <= k < |parts| ==> sep[|sep| - 1] !in parts[k]
    ensures Split(Join(parts, sep), sep) == parts
  {
    if |parts| == 1 {
      SplitWhole(parts[0], sep);
    } else {
      SplitAfterPiece(parts[0], sep, Join(parts[1..], sep));
      SplitOfJoin(parts[1..], sep);
    }
  }

  predicate IsDigit(c: char) {
    '0' <= c <= '9'
  }

  predicate AllDigits(s: string) {
    forall k :: 0 <= k < |s| ==> IsDigit(s[k])
  }

  function DigitValue(c: char): nat
    requires IsDigit(c)
  {
    (c as int) - ('0' as int)
  }

  function DigitChar(d: nat): (c: char)
    requires d < 10
    ensures IsDigit(c) && DigitValue(c) == d
  {
    (('0' as int) + d) as char
  }

  /** The number a run of decimal digits denotes (what `parseInt` gives for it). */
  function DigitsValue(s: string): nat
    requires AllDigits(s)
  {
    if s == [] then 0 else DigitsValue(s[..|s| - 1]) * 10 + DigitValue(s[|s| - 1])
  }

  /** `String(n)` for a non-negative integer: its decimal digits, without leading zeros. */
  function NatToString(n: nat): (s: string)
    ensures s != [] && AllDigits(s)
    ensures DigitsValue(s) == n
    ensures s[0] == '0' ==> s == "0"
    decreases n
  {
    if n < 10 then [DigitChar(n)]
    else
      var s := NatToString(n / 10) + [DigitChar(n % 10)];
      assert s[..|s| - 1] == NatToString(n / 10);
      s
  }

  /** `String(i)` for an integer. */
  function IntToString(i: int): (s: string)
    ensures s != [] && (s[0] == '-' || IsDigit(s[0])) && IsDigit(s[|s| - 1])
    ensures forall k :: 0 <= k < |s| ==> s[k] == '-' || IsDigit(s[k])
  {
    if i < 0 then "-" + NatToString(-i) else NatToString(i)
  }

  /** The longest run of digits at the front of `s`. */
  function DigitPrefix(s: string): (d: string)
    ensures |d| <= |s| && d == s[..|d|] && AllDigits(d)
    ensures |d| == |s| || !IsDigit(s[|d|])
  {
    if s != [] && IsDigit(s[0]) then
      var d := [s[0]] + DigitPrefix(s[1..]);
      assert s == [s[0]] + s[1..];
      d
    else []
  }

  /** `parseInt(s, 10)`: leading whitespace, an optional sign, then the longest
      run of decimal digits. `None` stands for NaN. */
  function ParseInt(s: string): (r: Option<int>)
  {
    var t := TrimStart(s);
    var negative := t != [] && t[0] == '-';
    var u := if t != [] && (t[0] == '-' || t[0] == '+') then t[1..] else t;
    var d := DigitPrefix(u);
    var v: int := if d == [] then 0 else DigitsValue(d);
    if d == [] then None else Some(if negative then -v else v)
  }

  /** Reading back a written integer gives the integer. */
  lemma ParseIntOfIntToString(i: int)
    ensures ParseInt(IntToString(i)) == Some(i)
  {
    var s := IntToString(i);
    assert TrimStart(s) == s by {
      assert s[0] == '-' || IsDigit(s[0]);
    }
    if i < 0 {
      var n := NatToString(-i);
      assert s[1..] == n;
      DigitPrefixAll(n);
    } else {
      DigitPrefixAll(s);
    }
  }

  /** `parseInt` stops at the first character that is no digit: a written
      integer followed by such a character reads back as that integer. */
  lemma ParseIntBefore(i: int, rest: string)
    requires rest == [] || !IsDigit(rest[0])
    ensures ParseInt(IntToString(i) + rest) == Some(i)
  {
    var negative := i < 0;
    var n := NatToString(if negative then -i else i);
    var u := n + rest;
    SignedSplit(IntToString(i), n, rest, negative);
    DigitPrefixStops(n, rest);
    ParseIntOfSigned(IntToString(i) + rest, u, n, negative);
  }

  /** A written integer is its sign, then the digits of its magnitude. */
  lemma SignedSplit(s: string, n: string, rest: string, negative: bool)
    requires s == (if negative then "-" else "") + n
    ensures s + rest == (if negative then "-" else "") + (n + rest)
  {
  }

  /** `parseInt` on an optional minus sign, then a string whose digit
      prefix is the run `d`. */
  lemma ParseIntOfSigned(t: string, u: string, d: string, negative: bool)
    requires d != [] && DigitPrefix(u) == d && t == (if negative then "-" else "") + u
    ensures var v: int := DigitsValue(d); ParseInt(t) == Some(if negative then -v else v)
  {
    assert u[0] == d[0];
    var c := if negative then '-' else d[0];
    assert t[0] == c;
    SignNotWhitespace(c);
    assert TrimStart(t) == t;
    assert (t[0] == '-') == negative by {
      if !negative { assert !IsDigit('-'); }
    }
    var w := if t[0] == '-' || t[0] == '+' then t[1..] else t;
    assert w == u by {
      if negative { assert t[1..] == u; } else { assert t == u; }
    }
  }

  /** A sign or a digit is no whitespace. */
  lemma SignNotWhitespace(c: char)
    requires c == '-' || IsDigit(c)
    ensures !IsWhitespace(c)
  {
  }

  /** The digit prefix of a run of digits followed by a non-digit is that run. */
  lemma {:induction false} DigitPrefixStops(d: string, rest: string)
    requires AllDigits(d) && (rest == [] || !IsDigit(rest[0]))
    ensures DigitPrefix(d + rest) == d
    decreases |d|
  {
    if d != [] {
      assert (d + rest)[1..] == d[1..] + rest;
      DigitPrefixStops(d[1..], rest);
      assert [d[0]] + d[1..] == d;
    } else {
      assert d + rest == rest;
    }
  }

  /** A run of digits is its own digit prefix. */
  lemma DigitPrefixAll(s: string)
    requires AllDigits(s)
    ensures DigitPrefix(s) == s
  {
  }

  /** JavaScript's `%` on integers, `a - b * trunc(a / b)`: the remainder takes
      the sign of the dividend, is smaller than the divisor in size, and differs
      from the dividend by a multiple of the divisor. */
  function JsRem(a: int, b: int): (r: int)
    requires b > 0
    ensures a >= 0 ==> 0 <= r < b
    ensures a < 0 ==> -b < r <= 0
    ensures a >= 0 ==> r == a % b
    ensures (a - r) % b == 0
  {
    if a >= 0 then
      assert a - a % b == b * (a / b);
      MultipleRem(b, a / b);
      a % b
    else
      var r := -((-a) % b);
      NegativeRem(a, b);
      assert a - r == a + (-a) % b;
      r
  }

  /** A negative dividend and its truncated remainder differ by a multiple of `b`. */
  lemma NegativeRem(a: int, b: int)
    requires a < 0 && b > 0
    ensures (a + (-a) % b) % b == 0
  {
    var m := -a;
    var q := m / b;
    var n := -q;
    assert m == b * q + m % b;
    assert b * n == -(b * q);
    MultipleRem(b, n);
    assert a + m % b == b * n;
  }

  /** A multiple of `b` leaves no remainder. */
  lemma MultipleRem(b: int, m: int)
    requires b > 0
    ensures (b * m) % b == 0
  {
    var x := b * m;
    var k := m - x / b;
    assert x % b == b * k;
    if k >= 1 {
      assert false;
    } else if k <= -1 {
      assert false;
    }
  }
}
