/**
 * One row of the course search results and its pipe-delimited output
 * (main.go): a header line and one line per result, with the two detail
 * columns present only when details were added.
 */
module Results {
  import opened Text

  /**
   * A search result. `detailsAdded` and `detailPageLink` are never
   * written; `parallelGroups` is carried but not written either.
   */
  datatype SearchResult = SearchResult(
    detailsAdded: bool,
    number: string,
    title: string,
    kind: string,
    respTeacher: string,
    execTeacher: string,
    unit: string,
    sws: string,
    link: string,
    parallelGroups: string,
    detailPageLink: string)

  const Delimiter: char := '|'

  /** The column names of the header line, in order. */
  function HeaderColumns(detailsAdded: bool): seq<string> {
    var six := ["Nummer", "Veranstaltungstitel", "Veranstaltungsart",
      "Dozent/-in (verantw.)", "Dozent/-in (durchf.)", "Organisationseinheit"];
    if detailsAdded then six + ["SWS", "Link"] else six
  }

  /** The values a result contributes to its line, in column order. */
  function Columns(r: SearchResult): seq<string> {
    var six := [r.number, r.title, r.kind, r.respTeacher, r.execTeacher, r.unit];
    if r.detailsAdded then six + [r.sws, r.link] else six
  }

  /**
   * `writeResultHeader`: six names joined by `|`, then either `|SWS|Link`
   * and a newline, or just the newline.
   */
  function Header(detailsAdded: bool): (h: string)
    ensures h == Join(HeaderColumns(detailsAdded), Delimiter) + "\n"
  {
    JoinSix("Nummer", "Veranstaltungstitel", "Veranstaltungsart",
      "Dozent/-in (verantw.)", "Dozent/-in (durchf.)", "Organisationseinheit", Delimiter);
    if detailsAdded then
      JoinAppend(HeaderColumns(false), ["SWS", "Link"], Delimiter);
      assert ["SWS", "Link"][1..] == ["Link"];
      "Nummer" + "|" + "Veranstaltungstitel" + "|" + "Veranstaltungsart" + "|"
      + "Dozent/-in (verantw.)" + "|" + "Dozent/-in (durchf.)" + "|" + "Organisationseinheit"
      + "|" + "SWS" + "|" + "Link" + "\n"
    else
      "Nummer" + "|" + "Veranstaltungstitel" + "|" + "Veranstaltungsart" + "|"
      + "Dozent/-in (verantw.)" + "|" + "Dozent/-in (durchf.)" + "|" + "Organisationseinheit"
      + "\n"
  }

  /**
   * `writeAsCSVRow`: number, title, kind, both teachers and unit joined by
   * `|`, then `|<sws>|<link>` exactly when details were added, then one
   * newline.
   */
  function Row(r: SearchResult): (line: string)
    ensures line == Join(Columns(r), Delimiter) + "\n"
  {
    JoinSix(r.number, r.title, r.kind, r.respTeacher, r.execTeacher, r.unit, Delimiter);
    if r.detailsAdded then
      var six := [r.number, r.title, r.kind, r.respTeacher, r.execTeacher, r.unit];
      JoinAppend(six, [r.sws, r.link], Delimiter);
      assert [r.sws, r.link][1..] == [r.link];
      r.number + "|" + r.title + "|" + r.kind + "|" + r.respTeacher + "|" + r.execTeacher + "|" + r.unit
      + "|" + r.sws + "|" + r.link + "\n"
    else
      r.number + "|" + r.title + "|" + r.kind + "|" + r.respTeacher + "|" + r.execTeacher + "|" + r.unit
      + "\n"
  }

  /** No written value of `r` contains the delimiter or a newline. */
  predicate Plain(r: SearchResult) {
    NoneContains(Columns(r), Delimiter) && NoneContains(Columns(r), '\n')
  }

  /** Everything but the final newline. */
  function Body(line: string): string
    requires |line| >= 1
  {
    line[..|line| - 1]
  }

  /**
   * A row of plain values ends in exactly one newline, and splitting the
   * rest at `|` gives back the written values: six, or eight with details.
   */
  lemma RowReadsBack(r: SearchResult)
    requires Plain(r)
    ensures var line := Row(r);
      && line[|line| - 1] == '\n'
      && '\n' !in Body(line)
      && Split(Body(line), Delimiter) == Columns(r)
      && |Split(Body(line), Delimiter)| == (if r.detailsAdded then 8 else 6)
  {
    var line := Row(r);
    assert Body(line) == Join(Columns(r), Delimiter);
    SplitJoin(Columns(r), Delimiter);
    JoinAvoids(Columns(r), Delimiter, '\n');
  }

  /** Text made of characters from space to `z` holds neither the delimiter nor a newline. */
  lemma PrintableAvoids(c: string)
    requires forall n :: 0 <= n < |c| ==> ' ' <= c[n] <= 'z'
    ensures Delimiter !in c && '\n' !in c
  {
  }

  /** No column name contains the delimiter or a newline. */
  lemma HeaderColumnsPlain(detailsAdded: bool)
    ensures NoneContains(HeaderColumns(detailsAdded), Delimiter)
    ensures NoneContains(HeaderColumns(detailsAdded), '\n')
  {
    var cols := HeaderColumns(detailsAdded);
    forall m | 0 <= m < |cols| ensures Delimiter !in cols[m] && '\n' !in cols[m] {
      PrintableAvoids(cols[m]);
    }
  }

  /** The header ends in exactly one newline and splits into its column names. */
  lemma HeaderReadsBack(detailsAdded: bool)
    ensures var h := Header(detailsAdded);
      && h[|h| - 1] == '\n'
      && '\n' !in Body(h)
      && Split(Body(h), Delimiter) == HeaderColumns(detailsAdded)
      && |Split(Body(h), Delimiter)| == (if detailsAdded then 8 else 6)
  {
    var h := Header(detailsAdded);
    var cols := HeaderColumns(detailsAdded);
    assert Body(h) == Join(cols, Delimiter);
    HeaderColumnsPlain(detailsAdded);
    SplitJoin(cols, Delimiter);
    JoinAvoids(cols, Delimiter, '\n');
  }

  /**
   * Written with the same flag, the header and a row of plain values have
   * the same number of columns.
   */
  lemma HeaderMatchesRow(r: SearchResult)
    requires Plain(r)
    ensures |Split(Body(Header(r.detailsAdded)), Delimiter)| == |Split(Body(Row(r)), Delimiter)|
  {
    RowReadsBack(r);
    HeaderReadsBack(r.detailsAdded);
  }
}
