/**
 * The semester argument of the command line (`2020W`, `2021s`): its
 * parsing with Go's `fmt.Sscanf(s, "%4d%s", ...)` and the two encodings the
 * remote search form expects for it (main.go).
 */
module Semesters {
  import opened Wrappers
  import opened Text

  /** The two kinds of semester, numbered as the search form numbers them. */
  const Summer: int := 1
  const Winter: int := 2

  /** The width of the `%4d` verb. */
  const YearWidth: nat := 4

  datatype Semester = Semester(kind: int, year: int)

  predicate ValidKind(sem: Semester) {
    sem.kind == Summer || sem.kind == Winter
  }

  /** The error `parseSemester` reports for an argument it cannot read. */
  datatype ArgError = MalformedSemester(arg: string) {
    function Message(): string {
      "malformed semester argument: " + arg
    }
  }

  /** The process-ending error of `fmtSelectInput` for a kind that is neither 1 nor 2. */
  datatype FatalError = InvalidSemester(sem: Semester) {
    function Message(): string {
      "invalid semester: {" + IntToString(sem.kind) + " " + IntToString(sem.year) + "}"
    }
  }

  // ---------------------------------------------------------------------
  // The scanner behind Sscanf("%4d%s")
  // ---------------------------------------------------------------------

  /** Why the scan stopped; the program folds all of these into one message. */
  datatype ScanError = UnexpectedEof | UnexpectedNewline | ExpectedInteger | BadDigits

  /**
   * Go's `SkipSpace` for `Sscanf`, where a newline is not white space:
   * white space is skipped, and meeting a newline first is an error.
   */
  function SkipSpace(s: string, i: nat): (r: Result<nat, ScanError>)
    requires i <= |s|
    ensures r.Success? ==> i <= r.value <= |s|
    ensures r.Success? ==> forall m :: i <= m < r.value ==> IsBlank(s[m])
    ensures r.Success? ==> r.value == |s| || IsNonSpace(s[r.value])
    ensures r.Failure? ==> r.error == UnexpectedNewline
  {
    var j := Span(s, i, |s|, IsBlank);
    if j < |s| && s[j] == '\n' then Failure(UnexpectedNewline) else Success(j)
  }

  function SignOf(c: char): int {
    if c == '-' then -1 else 1
  }

  /**
   * The `%4d` verb: white space is skipped first; then at most four
   * characters are read, an optional sign and a run of digits. Go's scanner
   * lets `_` into the run, and base-10 integer parsing then rejects it.
   * Yields the value and the position after the number.
   */
  function ScanYear(s: string): (r: Result<(int, nat), ScanError>)
    ensures r.Success? ==> r.value.1 <= |s|
  {
    match SkipSpace(s, 0)
    case Failure(e) => Failure(e)
    case Success(i) =>
      if i == |s| then Failure(UnexpectedEof)
      else
        var lim := if |s| < i + YearWidth then |s| else i + YearWidth;
        var d := if IsSign(s[i]) then i + 1 else i;
        if d == lim then Failure(UnexpectedEof)
        else if !IsDigitOrUnderscore(s[d]) then Failure(ExpectedInteger)
        else
          var j := Span(s, d, lim, IsDigitOrUnderscore);
          if !AllDigits(s[d..j]) then Failure(BadDigits)
          else Success((SignOf(s[i]) * DigitsValue(s[d..j]), j))
  }

  /**
   * The `%s` verb from position `j`: white space is skipped, then the
   * following run of non-space characters is the word; an empty word is an
   * end-of-input error. Whatever follows the word is ignored.
   */
  function ScanWord(s: string, j: nat): (r: Result<string, ScanError>)
    requires j <= |s|
    ensures r.Success? ==> |r.value| >= 1
  {
    match SkipSpace(s, j)
    case Failure(e) => Failure(e)
    case Success(k) =>
      if k == |s| then Failure(UnexpectedEof)
      else Success(s[k..Span(s, k, |s|, IsNonSpace)])
  }

  /**
   * `parseSemester`: scan a year and an indicator word; the word,
   * lower-cased, must be `s` (summer) or `w` (winter).
   */
  function ParseSemester(arg: string): (r: Result<Semester, ArgError>)
    ensures r.Success? ==> ValidKind(r.value)
    ensures r.Failure? ==> r.error == MalformedSemester(arg)
  {
    match ScanYear(arg)
    case Failure(_) => Failure(MalformedSemester(arg))
    case Success((year, j)) =>
      match ScanWord(arg, j)
      case Failure(_) => Failure(MalformedSemester(arg))
      case Success(word) =>
        var indicator := ToLower(word);
        if indicator == "s" then Success(Semester(Summer, year))
        else if indicator == "w" then Success(Semester(Winter, year))
        else Failure(MalformedSemester(arg))
  }

  // ---------------------------------------------------------------------
  // Which arguments parse
  // ---------------------------------------------------------------------

  predicate IsIndicator(c: char) { c in "sSwW" }

  function KindOf(c: char): int {
    if c in "sS" then Summer else Winter
  }

  /** Where the digits of a year token start: after its sign, if any. */
  function DigitStart(t: string): nat
    requires |t| >= 1
  {
    if IsSign(t[0]) then 1 else 0
  }

  /** A year as `%4d` reads it: an optional sign and 1 to 4 characters in all. */
  predicate IsYearToken(t: string) {
    1 <= |t| <= YearWidth && DigitStart(t) < |t| && AllDigits(t[DigitStart(t)..])
  }

  function YearValue(t: string): int
    requires IsYearToken(t)
  {
    SignOf(t[0]) * DigitsValue(t[DigitStart(t)..])
  }

  /**
   * The argument `arg` has the shape the parser accepts, with the year token
   * at `arg[i..j]` and the one-letter indicator at `arg[k]`: white space
   * (no newline) before the year, white space (no newline) between year and
   * indicator, and the indicator ending the argument or followed by white
   * space; `sem` is what it denotes.
   */
  ghost predicate Accepts(arg: string, i: nat, j: nat, k: nat, sem: Semester) {
    && i <= j <= k < |arg|
    && (forall m :: 0 <= m < i ==> IsBlank(arg[m]))
    && IsYearToken(arg[i..j])
    && (forall m :: j <= m < k ==> IsBlank(arg[m]))
    && IsIndicator(arg[k])
    && (k + 1 == |arg| || IsSpace(arg[k + 1]))
    && sem == Semester(KindOf(arg[k]), YearValue(arg[i..j]))
  }

  /** A successful year scan read a year token after leading blanks. */
  lemma ScanYearSound(arg: string, year: int, j: nat)
    requires ScanYear(arg) == Success((year, j))
    ensures SkipSpace(arg, 0).Success?
    ensures var i := SkipSpace(arg, 0).value;
      && i <= j
      && (forall m :: 0 <= m < i ==> IsBlank(arg[m]))
      && IsYearToken(arg[i..j])
      && year == YearValue(arg[i..j])
  {
    var i := SkipSpace(arg, 0).value;
    var t := arg[i..j];
    var d := if IsSign(arg[i]) then i + 1 else i;
    assert t[DigitStart(t)..] == arg[d..j];
  }

  /** A successful word scan read the non-space run after some blanks. */
  lemma ScanWordSound(arg: string, j: nat, word: string)
    requires j <= |arg| && ScanWord(arg, j) == Success(word)
    ensures SkipSpace(arg, j).Success?
    ensures var k := SkipSpace(arg, j).value;
      && k < |arg|
      && (forall m :: j <= m < k ==> IsBlank(arg[m]))
      && word == arg[k..Span(arg, k, |arg|, IsNonSpace)]
  {
  }

  /** A word that lower-cases to `s` or `w` is one indicator letter of that kind. */
  lemma IndicatorWord(word: string)
    requires ToLower(word) == "s" || ToLower(word) == "w"
    ensures |word| == 1 && IsIndicator(word[0])
    ensures KindOf(word[0]) == if ToLower(word) == "s" then Summer else Winter
  {
    assert ToLower(word)[0] == 's' || ToLower(word)[0] == 'w';
  }

  /** What a successful parse consists of: a year scan, a word scan, an indicator word. */
  lemma ParseSemesterSteps(arg: string, sem: Semester)
    requires ParseSemester(arg) == Success(sem)
    ensures ScanYear(arg).Success?
    ensures ScanWord(arg, ScanYear(arg).value.1).Success?
    ensures var word := ScanWord(arg, ScanYear(arg).value.1).value;
      && (ToLower(word) == "s" || ToLower(word) == "w")
      && sem == Semester(if ToLower(word) == "s" then Summer else Winter, ScanYear(arg).value.0)
  {
  }

  lemma ParseSemesterSound(arg: string, sem: Semester)
    requires ParseSemester(arg) == Success(sem)
    ensures exists i, j, k :: Accepts(arg, i, j, k, sem)
  {
    ParseSemesterSteps(arg, sem);
    var year := ScanYear(arg).value.0;
    var j := ScanYear(arg).value.1;
    ScanYearSound(arg, year, j);
    var i := SkipSpace(arg, 0).value;
    var word := ScanWord(arg, j).value;
    ScanWordSound(arg, j, word);
    IndicatorWord(word);
    var k := SkipSpace(arg, j).value;
    var e := Span(arg, k, |arg|, IsNonSpace);
    assert e == k + 1;
    assert word[0] == arg[k];
    assert Accepts(arg, i, j, k, sem);
  }

  /** The year scan of an accepted argument reads `arg[i..j]`. */
  lemma ScanYearAccepted(arg: string, i: nat, j: nat, k: nat, sem: Semester)
    requires Accepts(arg, i, j, k, sem)
    ensures ScanYear(arg) == Success((sem.year, j))
  {
    var t := arg[i..j];
    assert IsNonSpace(arg[i]) by { assert arg[i] == t[0]; }
    assert SkipSpace(arg, 0) == Success(i);
    var lim := if |arg| < i + YearWidth then |arg| else i + YearWidth;
    var d := if IsSign(arg[i]) then i + 1 else i;
    assert arg[d..j] == t[DigitStart(t)..];
    assert forall m :: d <= m < j ==> IsDigitOrUnderscore(arg[m]) by {
      forall m | d <= m < j ensures IsDigit(arg[m]) {
        assert arg[m] == t[DigitStart(t)..][m - d];
      }
    }
    assert IsDigitOrUnderscore(arg[d]);
    assert j == lim || !IsDigitOrUnderscore(arg[j]);
    assert Span(arg, d, lim, IsDigitOrUnderscore) == j;
  }

  /** The word scan of an accepted argument reads the indicator letter alone. */
  lemma ScanWordAccepted(arg: string, i: nat, j: nat, k: nat, sem: Semester)
    requires Accepts(arg, i, j, k, sem)
    ensures ScanWord(arg, j) == Success([arg[k]])
  {
    assert SkipSpace(arg, j) == Success(k);
    assert Span(arg, k, |arg|, IsNonSpace) == k + 1;
    assert arg[k..k + 1] == [arg[k]];
  }

  lemma ParseSemesterComplete(arg: string, i: nat, j: nat, k: nat, sem: Semester)
    requires Accepts(arg, i, j, k, sem)
    ensures ParseSemester(arg) == Success(sem)
  {
    ScanYearAccepted(arg, i, j, k, sem);
    ScanWordAccepted(arg, i, j, k, sem);
    var low := ToLower([arg[k]]);
    assert |low| == 1;
    if arg[k] in "sS" {
      assert low == "s";
    } else {
      assert low == "w";
    }
  }

  /** The arguments `parseSemester` accepts are exactly those of the shape `Accepts`. */
  lemma ParseSemesterCharacterized(arg: string, sem: Semester)
    ensures ParseSemester(arg) == Success(sem) <==> exists i, j, k :: Accepts(arg, i, j, k, sem)
  {
    if ParseSemester(arg) == Success(sem) {
      ParseSemesterSound(arg, sem);
    }
    if exists i, j, k :: Accepts(arg, i, j, k, sem) {
      var i, j, k :| Accepts(arg, i, j, k, sem);
      ParseSemesterComplete(arg, i, j, k, sem);
    }
  }

  /**
   * One to four digits and an indicator letter: the year is the digits'
   * value, so `2020W` is winter 2020 and `20W` is winter 20.
   */
  lemma DigitsThenIndicator(digits: string, c: char)
    requires 1 <= |digits| <= YearWidth && AllDigits(digits) && IsIndicator(c)
    ensures ParseSemester(digits + [c]) == Success(Semester(KindOf(c), DigitsValue(digits)))
  {
    var arg := digits + [c];
    var n := |digits|;
    assert arg[0..n] == digits;
    ParseSemesterComplete(arg, 0, n, n, Semester(KindOf(c), DigitsValue(digits)));
  }

  /** Without any indicator letter the argument is malformed. */
  lemma NeedsIndicator(arg: string)
    requires forall m :: 0 <= m < |arg| ==> !IsIndicator(arg[m])
    ensures ParseSemester(arg) == Failure(MalformedSemester(arg))
  {
    if ParseSemester(arg).Success? {
      ParseSemesterSound(arg, ParseSemester(arg).value);
    }
  }

  /** An accepted year token starts with a sign or a digit. */
  lemma AcceptedYearStart(arg: string, i: nat, j: nat, k: nat, sem: Semester)
    requires Accepts(arg, i, j, k, sem)
    ensures IsSign(arg[i]) || IsDigit(arg[i])
  {
    var t := arg[i..j];
    assert arg[i] == t[0];
    if !IsSign(t[0]) {
      assert t[DigitStart(t)..][0] == t[0];
    }
  }

  /** An accepted year token starts at the first non-blank character. */
  lemma AcceptedYearFollowsBlanks(arg: string, i: nat, j: nat, k: nat, sem: Semester, first: nat)
    requires Accepts(arg, i, j, k, sem)
    requires first < |arg| && !IsBlank(arg[first])
    requires forall m :: 0 <= m < first ==> IsBlank(arg[m])
    ensures i == first && (IsSign(arg[first]) || IsDigit(arg[first]))
  {
    AcceptedYearStart(arg, i, j, k, sem);
    assert !IsBlank(arg[i]);
    assert i <= first;
    assert i >= first;
  }

  /** If the first non-blank character starts no integer, the argument is malformed. */
  lemma NeedsLeadingInteger(arg: string, i: nat)
    requires i < |arg| && !IsBlank(arg[i])
    requires forall m :: 0 <= m < i ==> IsBlank(arg[m])
    requires !IsSign(arg[i]) && !IsDigit(arg[i])
    ensures ParseSemester(arg) == Failure(MalformedSemester(arg))
  {
    if ParseSemester(arg).Success? {
      var sem := ParseSemester(arg).value;
      ParseSemesterSound(arg, sem);
      var i': nat, j: nat, k: nat :| Accepts(arg, i', j, k, sem);
      AcceptedYearFollowsBlanks(arg, i', j, k, sem, i);
    }
  }

  /** After four digits and a non-space character, the indicator is that character. */
  lemma AcceptedAfterFourDigits(arg: string, i: nat, j: nat, k: nat, sem: Semester)
    requires Accepts(arg, i, j, k, sem)
    requires |arg| > YearWidth && IsNonSpace(arg[YearWidth])
    requires forall m :: 0 <= m < YearWidth ==> IsDigit(arg[m])
    ensures k == YearWidth
  {
    AcceptedYearStart(arg, i, j, k, sem);
    assert IsDigit(arg[0]);
    assert i == 0;
    assert j <= YearWidth;
    assert j < YearWidth ==> IsDigit(arg[j]);
    assert j == YearWidth;
  }

  /**
   * Four digits followed by a word other than a lone `s`, `S`, `w` or `W`
   * (such as `x`, `sw`, or the `1W` left over from `20201W`) is malformed.
   */
  lemma RejectsOtherIndicator(digits: string, word: string)
    requires |digits| == YearWidth && AllDigits(digits)
    requires |word| >= 1 && forall m :: 0 <= m < |word| ==> IsNonSpace(word[m])
    requires !(|word| == 1 && IsIndicator(word[0]))
    ensures ParseSemester(digits + word).Failure?
  {
    var arg := digits + word;
    assert forall m :: 0 <= m < YearWidth ==> arg[m] == digits[m];
    assert arg[YearWidth] == word[0];
    if |word| >= 2 {
      assert arg[YearWidth + 1] == word[1];
    } else {
      assert word == [arg[YearWidth]];
    }
    if ParseSemester(arg).Success? {
      var sem := ParseSemester(arg).value;
      ParseSemesterSound(arg, sem);
      var i: nat, j: nat, k: nat :| Accepts(arg, i, j, k, sem);
      AcceptedAfterFourDigits(arg, i, j, k, sem);
    }
  }

  // ---------------------------------------------------------------------
  // The two form encodings
  // ---------------------------------------------------------------------

  /** `fmtSelect`: the machine form of the term selector. */
  function FmtSelect(sem: Semester): string {
    "eq|" + IntToString(sem.kind) + "|" + IntToString(sem.year)
  }

  /**
   * `fmtSelectInput`: the display form of the term selector; any kind other
   * than summer or winter ends the process.
   */
  function FmtSelectInput(sem: Semester): (r: Result<string, FatalError>)
    ensures r.Success? <==> ValidKind(sem)
    ensures r.Failure? ==> r.error == InvalidSemester(sem)
  {
    if sem.kind == 1 then Success("Sommersemester+" + IntToString(sem.year))
    else if sem.kind == 2 then Success("Wintersemester+" + IntToString(sem.year))
    else Failure(InvalidSemester(sem))
  }

  /** Reads back the machine form `eq|<kind>|<year>`. */
  function ParseSelect(t: string): Option<Semester> {
    if |t| < 3 || t[..3] != "eq|" then None
    else
      var parts := Split(t[3..], '|');
      if |parts| != 2 then None
      else
        match (ParseInt(parts[0]), ParseInt(parts[1]))
        case (Some(kind), Some(year)) => Some(Semester(kind, year))
        case _ => None
  }

  /** Reads back the display form `Sommersemester+<year>` / `Wintersemester+<year>`. */
  function ParseSelectInput(t: string): Option<Semester> {
    var n := |"Sommersemester+"|;
    if |t| < n then None
    else if t[..n] == "Sommersemester+" then
      match ParseInt(t[n..])
      case Some(year) => Some(Semester(Summer, year))
      case None => None
    else if t[..n] == "Wintersemester+" then
      match ParseInt(t[n..])
      case Some(year) => Some(Semester(Winter, year))
      case None => None
    else None
  }

  /** The machine form splits back into the two numbers it was made from. */
  lemma SelectParts(k: string, y: string)
    requires '|' !in k && '|' !in y
    ensures var t := "eq|" + k + "|" + y;
      |t| >= 3 && t[..3] == "eq|" && Split(t[3..], '|') == [k, y]
  {
    var t := "eq|" + k + "|" + y;
    assert t[3..] == Join([k, y], '|');
    SplitJoin([k, y], '|');
  }

  /** The machine form names the semester it was made from. */
  lemma SelectRoundTrip(sem: Semester)
    ensures ParseSelect(FmtSelect(sem)) == Some(sem)
  {
    var k := IntToString(sem.kind);
    var y := IntToString(sem.year);
    assert '|' !in k && '|' !in y;
    SelectParts(k, y);
  }

  /** The display form of a summer or winter semester names that semester. */
  lemma SelectInputRoundTrip(sem: Semester)
    requires ValidKind(sem)
    ensures ParseSelectInput(FmtSelectInput(sem).value) == Some(sem)
  {
    var y := IntToString(sem.year);
    var t := FmtSelectInput(sem).value;
    assert t[15..] == y;
    if sem.kind == Summer {
      assert t[..15] == "Sommersemester+";
    } else {
      assert t[..15] == "Wintersemester+";
      assert "Wintersemester+" != "Sommersemester+" by {
        assert "Wintersemester+"[0] != "Sommersemester+"[0];
      }
    }
  }

  /**
   * A parsed argument always has a valid kind, so the display form never
   * reaches its fatal branch, and the two encodings name the same semester.
   */
  lemma ParsedSemesterEncodes(arg: string)
    requires ParseSemester(arg).Success?
    ensures FmtSelectInput(ParseSemester(arg).value).Success?
    ensures ParseSelect(FmtSelect(ParseSemester(arg).value))
         == ParseSelectInput(FmtSelectInput(ParseSemester(arg).value).value)
         == Some(ParseSemester(arg).value)
  {
    var sem := ParseSemester(arg).value;
    SelectRoundTrip(sem);
    SelectInputRoundTrip(sem);
  }
}
