/**
 * Character classes and string helpers that Go's `fmt` and `strings`
 * packages provide to the program: decimal rendering of integers (`%d`),
 * the scanner's notion of white space, ASCII lower-casing, and splitting
 * and joining on a one-character delimiter.
 */
module Text {
  import opened Wrappers

  // ---------------------------------------------------------------------
  // Character classes
  // ---------------------------------------------------------------------

  predicate IsDigit(c: char) { '0' <= c <= '9' }

  predicate IsSign(c: char) { c == '+' || c == '-' }

  /** The characters Go's scanner accepts inside a decimal number: digits and `_`. */
  predicate IsDigitOrUnderscore(c: char) { IsDigit(c) || c == '_' }

  /**
   * White space as Go's `fmt` scanner defines it (its `isSpace` table):
   * U+0009..U+000D, U+0020, U+0085, U+00A0, U+1680, U+2000..U+200A,
   * U+2028, U+2029, U+202F, U+205F and U+3000.
   */
  predicate IsSpace(c: char) {
    || ('\U{0009}' <= c <= '\U{000D}')
    || c == ' '
    || c == '\U{0085}'
    || c == '\U{00A0}'
    || c == '\U{1680}'
    || ('\U{2000}' <= c <= '\U{200A}')
    || c == '\U{2028}'
    || c == '\U{2029}'
    || c == '\U{202F}'
    || c == '\U{205F}'
    || c == '\U{3000}'
  }

  predicate IsNonSpace(c: char) { !IsSpace(c) }

  /** White space the scanner may skip when newlines are not spaces. */
  predicate IsBlank(c: char) { IsSpace(c) && c != '\n' }

  predicate AllDigits(t: string) {
    forall m :: 0 <= m < |t| ==> IsDigit(t[m])
  }

  // ---------------------------------------------------------------------
  // Scanning a run of characters
  // ---------------------------------------------------------------------

  /**
   * The end of the longest run of characters satisfying `p` that starts at
   * `i` and stays below `lim`.
   */
  function Span(s: string, i: nat, lim: nat, p: char -> bool): (j: nat)
    requires i <= lim <= |s|
    ensures i <= j <= lim
    ensures forall m :: i <= m < j ==> p(s[m])
    ensures j == lim || !p(s[j])
    decreases lim - i
  {
    if i == lim || !p(s[i]) then i else Span(s, i + 1, lim, p)
  }

  // ---------------------------------------------------------------------
  // Decimal numbers
  // ---------------------------------------------------------------------

  function DigitValue(c: char): (d: nat)
    requires IsDigit(c)
    ensures d < 10
  {
    (c as int) - ('0' as int)
  }

  function DigitChar(d: nat): (c: char)
    requires d < 10
    ensures IsDigit(c) && DigitValue(c) == d
  {
    (('0' as int) + d) as char
  }

  /** The value of a string of decimal digits, most significant first. */
  function DigitsValue(t: string): nat
    requires AllDigits(t)
  {
    if |t| == 0 then 0
    else DigitsValue(t[..|t| - 1]) * 10 + DigitValue(t[|t| - 1])
  }

  /** Go's `%d` rendering of a non-negative integer. */
  function NatToString(n: nat): (r: string)
    ensures 1 <= |r| && AllDigits(r)
    ensures DigitsValue(r) == n
    ensures r[0] == '0' ==> r == "0"
  {
    if n < 10 then [DigitChar(n)]
    else
      var prefix := NatToString(n / 10);
      assert (prefix + [DigitChar(n % 10)])[..|prefix|] == prefix;
      prefix + [DigitChar(n % 10)]
  }

  /** Go's `%d` rendering of an integer: a minus sign for negative values. */
  function IntToString(n: int): (r: string)
    ensures ParseInt(r) == Some(n)
    ensures forall m :: 0 <= m < |r| ==> IsDigit(r[m]) || r[m] == '-'
    ensures n < 0 ==> |r| >= 2 && r[0] == '-' && r[1] != '0'
    ensures n >= 0 ==> |r| >= 1 && r[0] != '-' && (r[0] == '0' ==> r == "0")
  {
    if n < 0 then "-" + NatToString(-n) else NatToString(n)
  }

  /**
   * Reads back what `IntToString` writes: an optional minus sign followed
   * by at least one digit.
   */
  function ParseInt(t: string): Option<int> {
    if |t| >= 2 && t[0] == '-' && AllDigits(t[1..]) then Some(-(DigitsValue(t[1..]) as int))
    else if |t| >= 1 && AllDigits(t) then Some(DigitsValue(t))
    else None
  }

  // ---------------------------------------------------------------------
  // Case
  // ---------------------------------------------------------------------

  /**
   * Lower-casing of ASCII letters; every other character is kept. Go's
   * `strings.ToLower` also lower-cases non-ASCII letters, but none of them
   * becomes `s` or `w`, the only results the program compares against.
   */
  function ToLower(t: string): (r: string)
    ensures |r| == |t|
    ensures forall m :: 0 <= m < |t| ==> (r[m] == 's' <==> t[m] in "sS")
    ensures forall m :: 0 <= m < |t| ==> (r[m] == 'w' <==> t[m] in "wW")
  {
    seq(|t|, m requires 0 <= m < |t| =>
      if 'A' <= t[m] <= 'Z' then ((t[m] as int) - ('A' as int) + ('a' as int)) as char else t[m])
  }

  // ---------------------------------------------------------------------
  // Delimited fields
  // ---------------------------------------------------------------------

  /** The position of the first `c` in `t`, if any. */
  function IndexOf(t: string, c: char): (r: Option<nat>)
    ensures r.None? <==> c !in t
    ensures r.Some? ==> r.value < |t| && t[r.value] == c && c !in t[..r.value]
  {
    if |t| == 0 then None
    else if t[0] == c then Some(0)
    else
      match IndexOf(t[1..], c)
      case None => None
      case Some(i) =>
        assert t[..i + 1] == [t[0]] + t[1..][..i];
        Some(i + 1)
  }

  /** The fields of `t` between occurrences of `sep`; never empty. */
  function Split(t: string, sep: char): (r: seq<string>)
    decreases |t|
  {
    match IndexOf(t, sep)
    case None => [t]
    case Some(i) => [t[..i]] + Split(t[i + 1..], sep)
  }

  /** The fields written one after another with `sep` between neighbours. */
  function Join(fields: seq<string>, sep: char): string
    requires |fields| >= 1
  {
    if |fields| == 1 then fields[0]
    else fields[0] + [sep] + Join(fields[1..], sep)
  }

  /** Joining two non-empty lists is joining each and putting `sep` between. */
  lemma {:induction false} JoinAppend(a: seq<string>, b: seq<string>, sep: char)
    requires |a| >= 1 && |b| >= 1
    ensures Join(a + b, sep) == Join(a, sep) + [sep] + Join(b, sep)
    decreases |a|
  {
    if |a| == 1 {
      assert (a + b)[1..] == b;
    } else {
      JoinAppend(a[1..], b, sep);
      assert (a + b)[1..] == a[1..] + b;
    }
  }

  /** The six-field case, written out. */
  lemma JoinSix(f0: string, f1: string, f2: string, f3: string, f4: string, f5: string, sep: char)
    ensures Join([f0, f1, f2, f3, f4, f5], sep)
         == f0 + [sep] + f1 + [sep] + f2 + [sep] + f3 + [sep] + f4 + [sep] + f5
  {
    var j5 := Join([f5], sep);
    var j4 := Join([f4, f5], sep);
    var j3 := Join([f3, f4, f5], sep);
    var j2 := Join([f2, f3, f4, f5], sep);
    var j1 := Join([f1, f2, f3, f4, f5], sep);
    assert j4 == f4 + [sep] + j5 by { assert [f4, f5][1..] == [f5]; }
    assert j3 == f3 + [sep] + j4 by { assert [f3, f4, f5][1..] == [f4, f5]; }
    assert j2 == f2 + [sep] + j3 by { assert [f2, f3, f4, f5][1..] == [f3, f4, f5]; }
    assert j1 == f1 + [sep] + j2 by { assert [f1, f2, f3, f4, f5][1..] == [f2, f3, f4, f5]; }
    assert Join([f0, f1, f2, f3, f4, f5], sep) == f0 + [sep] + j1 by {
      assert [f0, f1, f2, f3, f4, f5][1..] == [f1, f2, f3, f4, f5];
    }
  }

  predicate NoneContains(fields: seq<string>, c: char) {
    forall m :: 0 <= m < |fields| ==> c !in fields[m]
  }

  /** Splitting recovers the joined fields when no field holds the delimiter. */
  lemma {:induction false} SplitJoin(fields: seq<string>, sep: char)
    requires |fields| >= 1
    requires NoneContains(fields, sep)
    ensures Split(Join(fields, sep), sep) == fields
  {
    if |fields| == 1 {
      assert IndexOf(fields[0], sep).None?;
    } else {
      var rest := Join(fields[1..], sep);
      var t := fields[0] + [sep] + rest;
      assert t[|fields[0]|] == sep;
      assert t[..|fields[0]|] == fields[0];
      assert IndexOf(t, sep) == Some(|fields[0]|);
      assert t[|fields[0]| + 1..] == rest;
      SplitJoin(fields[1..], sep);
      assert fields == [fields[0]] + fields[1..];
    }
  }

  /** A joined line contains `c` only if some field does or `c` is the delimiter. */
  lemma {:induction false} JoinAvoids(fields: seq<string>, sep: char, c: char)
    requires |fields| >= 1
    requires c != sep && NoneContains(fields, c)
    ensures c !in Join(fields, sep)
  {
    if |fields| > 1 {
      JoinAvoids(fields[1..], sep, c);
    }
  }
}
