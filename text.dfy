/**
 * String primitives of the Rust standard library that the changelog code
 * relies on: `BufRead::lines`, `str::trim`, `str::contains`,
 * `char::is_digit(10)`, the `Display` of an unsigned integer, and
 * `[String]::join`. Strings are Dafny `string`s (sequences of Unicode scalar
 * values); UTF-8 encoding is not modelled.
 */
module Text {

  /** `char::is_whitespace`: the characters with the Unicode White_Space property. */
  predicate IsWhitespace(c: char) {
    ('\t' <= c <= '\r') || c == ' ' || c == '\U{85}' || c == '\U{A0}' || c == '\U{1680}'
    || ('\U{2000}' <= c <= '\U{200A}') || c == '\U{2028}' || c == '\U{2029}'
    || c == '\U{202F}' || c == '\U{205F}' || c == '\U{3000}'
  }

  /** `char::is_digit(10)`: only the ASCII digits. */
  predicate IsAsciiDigit(c: char) {
    '0' <= c <= '9'
  }

  function TrimStart(s: string): string {
    if |s| > 0 && IsWhitespace(s[0]) then TrimStart(s[1..]) else s
  }

  function TrimEnd(s: string): string {
    if |s| > 0 && IsWhitespace(s[|s| - 1]) then TrimEnd(s[..|s| - 1]) else s
  }

  /** `str::trim`: leading and trailing whitespace removed. */
  function Trim(s: string): string {
    TrimEnd(TrimStart(s))
  }

  /** `line.trim().starts_with(|c| c.is_digit(10))`: the test that makes a line a log entry. */
  predicate IsEntryLine(line: string) {
    var t := Trim(line);
    |t| > 0 && IsAsciiDigit(t[0])
  }

  /** A line whose first character is not whitespace is an entry line exactly when that character is a digit. */
  lemma EntryLineByFirstChar(line: string)
    requires |line| > 0 && !IsWhitespace(line[0])
    ensures IsEntryLine(line) <==> IsAsciiDigit(line[0])
  {
    assert TrimStart(line) == line;
    TrimEndKeepsFirst(line);
  }

  lemma {:induction false} TrimEndKeepsFirst(s: string)
    requires |s| > 0 && !IsWhitespace(s[0])
    ensures |TrimEnd(s)| > 0 && TrimEnd(s)[0] == s[0]
  {
    if IsWhitespace(s[|s| - 1]) {
      TrimEndKeepsFirst(s[..|s| - 1]);
    }
  }

  /** `s.contains(p)` for a string pattern: p occurs in s at some position. */
  predicate Contains(s: string, p: string) {
    exists i :: 0 <= i <= |s| && p <= s[i..]
  }

  /** A string of the same length as the pattern contains it only by being equal to it. */
  lemma ContainsSameLength(s: string, p: string)
    requires |s| == |p|
    ensures Contains(s, p) <==> s == p
  {
    if Contains(s, p) {
      var i :| 0 <= i <= |s| && p <= s[i..];
      assert i == 0;
    } else {
      assert !(p <= s[0..]);
    }
  }

  /** An occurrence inside a slice of s is an occurrence in s. */
  lemma ContainsInSlice(s: string, lo: nat, hi: nat, p: string)
    requires lo <= hi <= |s| && Contains(s[lo..hi], p)
    ensures Contains(s, p)
  {
    var t := s[lo..hi];
    var i :| 0 <= i <= |t| && p <= t[i..];
    assert p <= s[lo + i..];
  }

  /** Concatenation regrouped, for the steps where the solver does not find it. */
  lemma ConcatAssoc<T>(a: seq<T>, b: seq<T>, c: seq<T>)
    ensures a + b + c == a + (b + c)
  {
  }

  /** s holds no line break. */
  predicate NoBreak(s: string) {
    s == [] || (s[0] != '\n' && NoBreak(s[1..]))
  }

  /** A string none of whose characters is '\n' holds no line break. */
  lemma {:induction false} NoBreakByChars(s: string)
    requires forall j :: 0 <= j < |s| ==> s[j] != '\n'
    ensures NoBreak(s)
    decreases |s|
  {
    if s != [] {
      assert forall j :: 0 <= j < |s[1..]| ==> s[1..][j] == s[j + 1];
      NoBreakByChars(s[1..]);
    }
  }

  /** Two break-free strings put together hold no break. */
  lemma {:induction false} NoBreakConcat(p: string, q: string)
    requires NoBreak(p) && NoBreak(q)
    ensures NoBreak(p + q)
    decreases |p|
  {
    if p == [] {
      assert p + q == q;
    } else {
      assert (p + q)[0] == p[0];
      assert (p + q)[1..] == p[1..] + q;
      NoBreakConcat(p[1..], q);
    }
  }

  function StripCarriageReturn(line: string): string {
    if |line| > 0 && line[|line| - 1] == '\r' then line[..|line| - 1] else line
  }

  /** The lines ls with the character c in front of the first one (a line of its own when there is none). */
  function Prepend(c: char, ls: seq<string>): (r: seq<string>)
    ensures |r| == if ls == [] then 1 else |ls|
  {
    if ls == [] then [[c]] else [[c] + ls[0]] + ls[1..]
  }

  /**
   * The lines `BufRead::lines` yields on the text s: the text is cut after
   * each '\n', the '\n' and one '\r' just before it are dropped, and a final
   * '\n' does not start an empty last line.
   */
  function Lines(s: string): seq<string>
    decreases |s|
  {
    if s == [] then []
    else if s[0] == '\n' then [""] + Lines(s[1..])
    else if s[0] == '\r' && |s| > 1 && s[1] == '\n' then [""] + Lines(s[2..])
    else Prepend(s[0], Lines(s[1..]))
  }

  /** Only the empty text has no lines. */
  lemma LinesNonEmpty(s: string)
    requires s != []
    ensures Lines(s) != []
  {
  }

  /** Putting a character in front of the first line does not touch the ones after it. */
  lemma PrependConcat(c: char, r: seq<string>, t: seq<string>)
    requires r != []
    ensures Prepend(c, r + t) == Prepend(c, r) + t
  {
    assert (r + t)[0] == r[0];
    assert (r + t)[1..] == r[1..] + t;
  }

  /** Text ending in a line break splits into its own lines, whatever follows. */
  lemma {:induction false} LinesConcat(a: string, b: string)
    requires a == [] || a[|a| - 1] == '\n'
    ensures Lines(a + b) == Lines(a) + Lines(b)
    decreases |a|
  {
    if a == [] {
      assert a + b == b;
    } else if a[0] == '\n' {
      LinesConcat(a[1..], b);
      ConcatAfterNewline(a, b);
    } else if a[0] == '\r' && |a| > 1 && a[1] == '\n' {
      LinesConcat(a[2..], b);
      ConcatAfterCrLf(a, b);
    } else {
      LinesConcat(a[1..], b);
      ConcatAfterChar(a, b);
    }
  }

  /** The step of `LinesConcat` at a leading '\n'. */
  lemma ConcatAfterNewline(a: string, b: string)
    requires a != [] && a[0] == '\n'
    requires Lines(a[1..] + b) == Lines(a[1..]) + Lines(b)
    ensures Lines(a + b) == Lines(a) + Lines(b)
  {
    var ab := a + b;
    assert ab[0] == '\n' && ab[1..] == a[1..] + b;
    assert Lines(ab) == [""] + Lines(a[1..] + b);
    assert Lines(a) == [""] + Lines(a[1..]);
    ConcatAssoc([""], Lines(a[1..]), Lines(b));
  }

  /** The step of `LinesConcat` at a leading "\r\n". */
  lemma ConcatAfterCrLf(a: string, b: string)
    requires |a| > 1 && a[0] == '\r' && a[1] == '\n'
    requires Lines(a[2..] + b) == Lines(a[2..]) + Lines(b)
    ensures Lines(a + b) == Lines(a) + Lines(b)
  {
    var ab := a + b;
    assert ab[0] == '\r' && ab[1] == '\n' && ab[2..] == a[2..] + b;
    assert Lines(ab) == [""] + Lines(a[2..] + b);
    assert Lines(a) == [""] + Lines(a[2..]);
    ConcatAssoc([""], Lines(a[2..]), Lines(b));
  }

  /** The step of `LinesConcat` at a leading character that does not end a line. */
  lemma ConcatAfterChar(a: string, b: string)
    requires |a| > 1 && a[|a| - 1] == '\n'
    requires a[0] != '\n' && !(a[0] == '\r' && |a| > 1 && a[1] == '\n')
    requires Lines(a[1..] + b) == Lines(a[1..]) + Lines(b)
    ensures Lines(a + b) == Lines(a) + Lines(b)
  {
    var ab := a + b;
    assert ab[0] == a[0] && ab[1] == a[1] && ab[1..] == a[1..] + b;
    assert Lines(ab) == Prepend(a[0], Lines(a[1..] + b));
    LinesNonEmpty(a[1..]);
    PrependConcat(a[0], Lines(a[1..]), Lines(b));
  }

  /** A line with no break in it, followed by '\\n', reads back as that one line. */
  lemma {:induction false} LineRoundTrip(line: string)
    requires NoBreak(line)
    ensures Lines(line + "\n") == [StripCarriageReturn(line)]
    decreases |line|
  {
    var s := line + "\n";
    if line == [] {
      assert s == "\n";
    } else {
      var t := line[1..];
      assert s[0] == line[0] && s[1..] == t + "\n";
      if line[0] == '\r' && t == [] {
        assert s == "\r\n";
      } else {
        assert !(s[0] == '\r' && s[1] == '\n') by {
          if t != [] { assert s[1] == t[0]; }
        }
        LineRoundTrip(t);
        assert line == [line[0]] + t;
        if t != [] {
          assert line[|line| - 1] == t[|t| - 1];
          assert line[..|line| - 1] == [line[0]] + t[..|t| - 1];
        }
      }
    }
  }

  /** A character that does not end a line joins the first line of what follows. */
  lemma LinesCons(c: char, t: string)
    requires c != '\n' && !(c == '\r' && t != [] && t[0] == '\n')
    ensures Lines([c] + t) == Prepend(c, Lines(t))
  {
    var s := [c] + t;
    assert s[0] == c && s[1..] == t;
    assert |s| > 1 ==> s[1] == t[0];
  }

  /** Text written in front of a non-empty text extends its first line only. */
  lemma {:induction false} LinesPrefix(p: string, s: string)
    requires NoBreak(p)
    requires p == [] || p[|p| - 1] != '\r'
    requires s != []
    ensures Lines(s) != []
    ensures Lines(p + s) == [p + Lines(s)[0]] + Lines(s)[1..]
    decreases |p|
  {
    LinesNonEmpty(s);
    if p == [] {
      var ls := Lines(s);
      assert p + s == s;
      assert ls == [ls[0]] + ls[1..];
      assert p + ls[0] == ls[0];
    } else {
      var q := p[1..];
      assert q == [] || q[|q| - 1] != '\r' by {
        if q != [] { assert q[|q| - 1] == p[|p| - 1]; }
      }
      LinesPrefix(q, s);
      PrefixOneMore(p, s);
    }
  }

  /** The step of `LinesPrefix`: one more character in front. */
  lemma PrefixOneMore(p: string, s: string)
    requires p != [] && NoBreak(p) && p[|p| - 1] != '\r' && s != [] && Lines(s) != []
    requires Lines(p[1..] + s) == [p[1..] + Lines(s)[0]] + Lines(s)[1..]
    ensures Lines(p + s) == [p + Lines(s)[0]] + Lines(s)[1..]
  {
    LinesFirstChar(p, s);
    PrependFirst(p, Lines(s)[0], Lines(s)[1..]);
  }

  /** The first character of a break-free p, not a carriage return before a break, is put in front of the rest. */
  lemma LinesFirstChar(p: string, s: string)
    requires p != [] && NoBreak(p) && p[|p| - 1] != '\r'
    ensures Lines(p + s) == Prepend(p[0], Lines(p[1..] + s))
  {
    var c := p[0];
    var q := p[1..];
    assert p + s == [c] + (q + s);
    assert !(c == '\r' && q + s != [] && (q + s)[0] == '\n') by {
      if q != [] { assert (q + s)[0] == q[0]; } else { assert c == p[|p| - 1]; }
    }
    LinesCons(c, q + s);
  }

  /** A character put in front of a line that continues a string p's tail gives p in front of it. */
  lemma PrependFirst(p: string, first: string, rest: seq<string>)
    requires p != []
    ensures Prepend(p[0], [p[1..] + first] + rest) == [p + first] + rest
  {
    var x := [p[1..] + first] + rest;
    assert x[0] == p[1..] + first;
    assert x[1..] == rest;
    assert p == [p[0]] + p[1..];
    assert [p[0]] + (p[1..] + first) == ([p[0]] + p[1..]) + first;
  }

  /** A slice of a suffix is a slice of the whole. */
  lemma SliceOfSuffix(s: string, d: nat, lo: nat, hi: nat)
    requires d <= |s| && lo <= hi <= |s| - d
    ensures s[d..][lo..hi] == s[lo + d..hi + d]
  {
  }

  /** Every line read from s is a piece of s, and the first one starts it. */
  lemma {:induction false} LineIsSlice(s: string, i: nat) returns (lo: nat, hi: nat)
    requires i < |Lines(s)|
    ensures lo <= hi <= |s| && Lines(s)[i] == s[lo..hi]
    ensures i == 0 ==> lo == 0
    decreases |s|
  {
    if s[0] == '\n' || (s[0] == '\r' && |s| > 1 && s[1] == '\n') {
      var d := if s[0] == '\n' then 1 else 2;
      assert Lines(s) == [""] + Lines(s[d..]);
      if i == 0 {
        lo, hi := 0, 0;
      } else {
        assert Lines(s)[i] == Lines(s[d..])[i - 1];
        var l, h := LineIsSlice(s[d..], i - 1);
        lo, hi := l + d, h + d;
        SliceOfSuffix(s, d, l, h);
      }
    } else {
      var r := Lines(s[1..]);
      assert Lines(s) == Prepend(s[0], r);
      if r == [] {
        lo, hi := 0, 1;
      } else {
        var l, h := LineIsSlice(s[1..], i);
        lo, hi := PrependSlice(s, i, l, h);
      }
    }
  }

  /** A line of the rest, shifted into s; the first one gains the first character of s. */
  lemma PrependSlice(s: string, i: nat, l: nat, h: nat) returns (lo: nat, hi: nat)
    requires s != [] && Lines(s[1..]) != [] && i < |Lines(s[1..])|
    requires Lines(s) == Prepend(s[0], Lines(s[1..]))
    requires l <= h <= |s| - 1 && Lines(s[1..])[i] == s[1..][l..h] && (i == 0 ==> l == 0)
    ensures lo <= hi <= |s| && Lines(s)[i] == s[lo..hi]
    ensures i == 0 ==> lo == 0
  {
    var r := Lines(s[1..]);
    SliceOfSuffix(s, 1, l, h);
    if i == 0 {
      lo, hi := 0, h + 1;
      assert Lines(s)[0] == [s[0]] + r[0];
      assert s[0..h + 1] == [s[0]] + s[1..h + 1];
    } else {
      lo, hi := l + 1, h + 1;
      assert Lines(s)[i] == r[i];
    }
  }

  /** Every line read from s is a piece of s: a pattern found in a line is found in s. */
  lemma LineOccurrenceInText(s: string, i: nat, p: string)
    requires i < |Lines(s)| && Contains(Lines(s)[i], p)
    ensures Contains(s, p)
  {
    var lo, hi := LineIsSlice(s, i);
    ContainsInSlice(s, lo, hi, p);
  }

  function Digit(d: nat): char
    requires d < 10
  {
    "0123456789"[d]
  }

  /** `Display` of an unsigned integer: its decimal digits, without leading zeros. */
  function Itoa(n: nat): (r: string)
    ensures |r| > 0
    ensures forall i :: 0 <= i < |r| ==> IsAsciiDigit(r[i])
    ensures n > 0 ==> r[0] != '0'
    decreases n
  {
    if n < 10 then [Digit(n)] else Itoa(n / 10) + [Digit(n % 10)]
  }

  /** The number a string of decimal digits denotes. */
  function DecimalValue(s: string): nat
    requires forall i :: 0 <= i < |s| ==> IsAsciiDigit(s[i])
  {
    if s == [] then 0
    else
      assert IsAsciiDigit(s[|s| - 1]);
      DecimalValue(s[..|s| - 1]) * 10 + (s[|s| - 1] as int - '0' as int)
  }

  /** The digits `Itoa` writes denote the number written. */
  lemma {:induction false} ItoaRoundTrip(n: nat)
    ensures DecimalValue(Itoa(n)) == n
    decreases n
  {
    if n >= 10 {
      ItoaRoundTrip(n / 10);
      assert Itoa(n)[..|Itoa(n)| - 1] == Itoa(n / 10);
    }
  }

  /** `[String]::join`: the pieces with the separator between consecutive ones. */
  function Join(pieces: seq<string>, sep: string): string {
    if pieces == [] then []
    else if |pieces| == 1 then pieces[0]
    else Join(pieces[..|pieces| - 1], sep) + sep + pieces[|pieces| - 1]
  }
}
