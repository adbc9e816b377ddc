# wuescrape core in Dafny

`wuescrape` is a command-line client for a university course catalogue.
It reads a search pattern and a semester such as `2020W`, drives the
catalogue's multi-step search form over HTTP, and prints the results as
pipe-delimited lines. This project models two pieces of it:

* **main.go.** Parsing of the semester argument. `parseSemester` reads the
  argument with `fmt.Sscanf(s, "%4d%s")`. The model encodes the scanner
  explicitly:
  - leading white space is skipped, and a newline there is an error;
  - then at most four characters are read: an optional sign and decimal digits;
  - white space is skipped again;
  - the next run of non-space characters is the indicator word;
  - anything after that word is ignored.
  The width limit starts after the leading white space. A `_` inside the
  digits makes Go's integer conversion fail. The indicator, lower-cased, must
  be `s` (summer, 1) or `w` (winter, 2). The model also covers:
  - the two form encodings of a semester, `fmtSelect` (`eq|<kind>|<year>`)
    and `fmtSelectInput` (`Sommersemester+<year>` / `Wintersemester+<year>`);
  - the result header line and result rows, written as strings instead of to
    an `io.Writer`.
* **session.go.** The "poisoned session" state machine.
  - A `Session` value holds the sticky first error, the flow id and the
    authenticity token.
  - `establish`, `submitSearch` and `viewSearchResults` are functions from a
    session and an abstract `Reply` to a `Step`. A `Reply` is the request
    failed, the body was unreadable, or a page arrived. A `Step` is the new
    session plus the request sent. No request is sent when the session is
    already poisoned.
  - A page is reduced to its `input` elements and their attributes. The
    token is the `value` attribute of the first input named
    `authenticity_token`.
  - `Run` folds a sequence of step calls. The lemmas about runs state that
    the first error wins, that nothing happens once poisoned, that the flow
    id never changes, and that the token only comes from a successful
    `establish`.

Modules: `Wrappers` (Option, Result), `Text` (Go's `%d`, the scanner's white
space, ASCII lower-casing, split/join on one character), `Semesters`,
`Results`, `Sessions`.

Behaviour of the code that a reader might not expect, and that the model
keeps:
- `flowID` starts at 1 and is never incremented or read (session.go:52).
- `flowURL` hard-codes execution key `e1s1` (session.go:91-96), and the
  search form hard-codes the same value as its view state (session.go:194).
- `parseSemester` accepts a year token of at most four characters, an
  optional sign then digits, because the sign counts toward the `%4d` width
  (main.go:73): `20W` is winter 20, and `+2020W` is malformed. White space
  around the year and trailing text after white space are accepted.
- `First()` never returns nil, so a page without a token input is reported as
  "authenticity_token has no value" (session.go:116-129). The model keeps the
  `NoTokenField` error of the unreachable nil check and proves that no step
  produces it.
- `submitSearch` posts whatever token the session holds, including `""`
  (session.go:169-179).

## Model

| member | source | states |
|---|---|---|
| Semesters.ParseSemester | main.go:69-88 | A successful parse has kind summer (1) or winter (2); every failure is the "malformed semester argument" error for exactly the given argument |
| Semesters.ParseSemesterCharacterized | main.go:73-87 | The parser accepts `arg` with result `sem` if and only if `arg` is white space, a year token of at most four characters (optional sign, then digits), white space, one letter from `sSwW`, then the end or white space; `sem` is the letter's kind and the token's value |
| Semesters.ParseSemesterSound | main.go:73-87 | Every successful parse comes from an argument of that shape |
| Semesters.ParseSemesterComplete | main.go:73-87 | Every argument of that shape parses to the semester it denotes |
| Semesters.ScanYearAccepted | main.go:73 | On an argument of that shape, the `%4d` scan reads exactly the year token and yields its value |
| Semesters.ScanWordAccepted | main.go:73 | On an argument of that shape, the `%s` scan yields the single indicator letter |
| Semesters.DigitsThenIndicator | main.go:73-87 | One to four digits followed by `s`/`S` give summer, and followed by `w`/`W` give winter; the year is the value of the digits (`2020W` is winter 2020, `20W` is winter 20) |
| Semesters.NeedsIndicator | main.go:73-76 | An argument with no `s`, `S`, `w` or `W` in it, such as a bare year, is malformed |
| Semesters.NeedsLeadingInteger | main.go:73-76 | If the first non-blank character is neither a sign nor a digit, the argument is malformed |
| Semesters.RejectsOtherIndicator | main.go:78-85 | Four digits followed by any non-space word other than a lone `s`, `S`, `w` or `W` (`x`, `sw`, or the `1W` of `20201W`) are malformed |
| Semesters.FmtSelectInput | main.go:94-104 | The display form exists exactly when the kind is 1 or 2; any other kind is the fatal "invalid semester" error for that semester |
| Semesters.SelectRoundTrip | main.go:90-92 | Reading the machine form (`eq`, kind and year separated by pipe characters) back gives the semester it was written from |
| Semesters.SelectInputRoundTrip | main.go:94-104 | Reading `Sommersemester+<year>` or `Wintersemester+<year>` back gives the semester it was written from |
| Semesters.ParsedSemesterEncodes | main.go:78-104 | A parsed semester never reaches the fatal branch of the display form, and both of its encodings read back to that semester |
| Text.IntToString | main.go:90-92 | The `%d` rendering reads back as the same integer and is canonical: a leading `-` exactly for negative values, then at least one digit and no leading zero unless the number is 0 |
| Results.Header | main.go:38-47 | The header line is the six column names, plus `SWS` and `Link` when details were added, joined by pipe characters and ended by one newline |
| Results.Row | main.go:49-57 | A row is number, title, kind, the two teachers and the unit, plus sws and link exactly when details were added, joined by pipe characters and ended by one newline |
| Results.RowReadsBack | main.go:49-57 | If no written value holds a pipe character or a newline, a row ends in its only newline and splits at the pipes into exactly its values: 6 columns, or 8 with details |
| Results.HeaderReadsBack | main.go:38-47 | The header ends in its only newline and splits at the pipes into its column names: 6, or 8 with details |
| Results.HeaderMatchesRow | main.go:38-57 | For the same details flag, the header and a row of plain values have the same number of columns |
| Sessions.NewSession | session.go:47-53 | A new session has no error, flow id 1 and an empty token |
| Sessions.FirstTokenInput | session.go:116-119 | Finds the first input named `authenticity_token`, or reports that there is none |
| Sessions.TokenValue | session.go:116-129 | The token is the `value` of the first token input; a page whose first token input has value `v` gives exactly `v` |
| Sessions.Establish | session.go:98-136 | A poisoned session is returned unchanged and nothing is sent. Otherwise the flow URL is fetched. The step succeeds exactly when a page arrives whose token input has a value, and then the token is that value. A failed GET, an unreadable document or a missing value records the matching error and keeps the old token. The unreachable "no field" error is never produced. The flow id is kept |
| Sessions.SearchForm | session.go:169-200 | The posted form holds every search field. It carries the session's token, the search text verbatim, `fmtSelect` and `fmtSelectInput` of the semester, and view state `e1s1` |
| Sessions.SubmitSearchStep | session.go:161-215 | A poisoned session is returned unchanged and nothing is sent. Otherwise the search form is posted to the flow URL. Only a delivered answer leaves the session clean. A failed post or read records the matching error. Token and flow id never change |
| Sessions.ViewSearchResults | session.go:217-237 | A poisoned session is returned unchanged and nothing is sent. Otherwise the flow URL is fetched. A failed fetch or read records the matching error. Token and flow id never change |
| Sessions.PoisonedRunIsInert | session.go:98-101 | From a poisoned session, any sequence of steps can run, sends nothing and changes nothing |
| Sessions.RunAppend | session.go:98-101 | Running two sequences of steps one after the other sends the same requests and ends in the same session as running their concatenation |
| Sessions.FirstErrorWins | session.go:98-113 | Once a sequence of steps has recorded an error, any further steps keep that same error and send nothing more |
| Sessions.FlowIsFixed | session.go:91-96 | No sequence of steps changes the flow id, and every request goes to the one flow URL |
| Sessions.ExecutionKeyIsConstant | session.go:91-96 | From a new session the flow id stays 1. Every request carries execution key `e1s1`, and every posted form carries `e1s1` as its view state |
| Sessions.PostsCarryExecutionKey | session.go:169-200 | Every form posted in a run holds all search fields and view state `e1s1` |
| Sessions.StepToken | session.go:98-136 | One step sets the token to the page's value exactly when it is an `establish` on a clean session whose page has a token value; every other step keeps the token |
| Sessions.States | session.go:98-237 | The sessions a run passes through start at the initial session, each follows from the one before by its step, and the last is the session the run ends in |
| Sessions.TokenIsLastEstablished | session.go:125-130 | After any run, the token is the one delivered to the last `establish` that ran on a clean session and succeeded; when no `establish` succeeded, it is the initial token |
| Sessions.CleanRunSendsEveryRequest | session.go:98-103 | A run sends at most one request per step, and exactly one per step if it ends without error |
| Sessions.EstablishThenSubmit | session.go:169-179 | Establishing on a page with token `tok`, then submitting a parsed semester, posts a form with `tok`, the search text, and two term encodings that both read back to that semester |

## Left out

- HTTP client, cookie jar, the two cookies `establish` seeds, goquery parsing and `ioutil.ReadAll`: network and library I/O. Each step instead takes the abstract outcome of its request as a `Reply`.
- Debug output, and the echo of response bodies and requests to stdout/stderr: output side effects only.
- `mustParse`, `bURL`, `sURL`: thin wrappers over `url.Parse`. `mustParse` ignores its argument, so `bURL()` really parses the search URL; this only affects where the cookies go, which is not modelled.
- The byte layout of `url.Values.Encode`: a URL is a path plus a map of query parameters. Field names are a datatype with their posted names attached. That those 21 names are pairwise distinct is not proved; the Go compiler already rejects duplicate constant keys in that map literal.
- `run`, `main`, `printUsage` and flag handling: command-line glue that ends in `os.Exit`.
- `getSearchResultDocument`, `extractResultData` and `addDetails`: called from main.go but not defined in the modelled files. The model has no pagination, result extraction or concurrent enrichment pool.
- `strings.ToLower` is modelled on ASCII letters only. No other character lower-cases to `s` or `w`, so the parse result is the same.
- Invalid UTF-8 in the argument is not modelled: a Dafny string is a sequence of Unicode scalar values.
- A submit reached on a clean session with a semester whose kind is not 1 or 2 ends the program through `log.Fatalf` in `fmtSelectInput` (main.go:94-104). `Sessions.Runnable` excludes exactly such sequences of steps, and `Sessions.Run` and the lemmas about runs are stated for the rest. A submit on a poisoned session returns before it formats the semester, so it can take any semester.
