/**
 * The search session (session.go): a value carrying a sticky first error,
 * the flow id and the authenticity token, and the three steps `establish`,
 * `submitSearch` and `viewSearchResults`. The network and the HTML parser
 * are not modelled: each step takes the `Reply` its request received and
 * returns, besides the new session, the request it sent (none when the
 * session was already poisoned by an earlier error).
 */
module Sessions {
  import opened Wrappers
  import opened Text
  import opened Semesters

  // ---------------------------------------------------------------------
  // Addresses and names
  // ---------------------------------------------------------------------

  const BaseUrl: string := "https://wuestudy.zv.uni-wuerzburg.de"
  const SearchUrl: string := BaseUrl + "/qisserver/pages/cm/exa/coursemanagement/basicCourseData.xhtml"
  const FlowName: string := "searchCourseNonStaff-flow"

  /** The flow execution key; the program always sends step 1 of execution 1. */
  const ExecutionKey: string := "e1s1"

  /** The name of the hidden input holding the anti-forgery token. */
  const AuthTokenName: string := "authenticity_token"

  /** The id of the search text field, also reported as the active page element. */
  const SearchMaskId: string := "genericSearchMask:search_e4ff321960e251186ac57567bec9f4ce:cm_exa_eventprocess_basic_data:fieldset:inputField_0_1ad08e26bde39c9e4f1833e56dcce9b5:id1ad08e26bde39c9e4f1833e56dcce9b5"

  /** A URL as a path and its query parameters; their textual encoding is not modelled. */
  datatype Url = Url(path: string, query: map<string, seq<string>>)

  /** The fields of the search form, in the order the program lists them. */
  datatype FormField =
    | ActivePageElementId | RefreshButtonClickedId | NavigationPosition | AuthenticityToken
    | AutoScroll | Navi1NumRows | Navi2NumRows | SearchField | TermSelect | TermSelectInput
    | TableColumns | NaviAboveTable | NaviBelowTable | TablePageSize | SubmitSearch | ViewState
    | ScrollToAnchor | DisableAutoscroll | DisableValidation | SearchMaskIdcl | ResultsIdcl
  {
    /** The name under which the field is posted. */
    function Name(): string {
      match this
      case ActivePageElementId => "activePageElementId"
      case RefreshButtonClickedId => "refreshButtonClickedId"
      case NavigationPosition => "navigationPosition"
      case AuthenticityToken => AuthTokenName
      case AutoScroll => "autoScroll"
      case Navi1NumRows => "genSearchRes:id3df798d58b4bacd9:id3df798d58b4bacd9NaviNumRowsInput"
      case Navi2NumRows => "genSearchRes:id3df798d58b4bacd9:id3df798d58b4bacd9Navi2NumRowsInput"
      case SearchField => SearchMaskId
      case TermSelect => "genericSearchMask:search_e4ff321960e251186ac57567bec9f4ce:cm_exa_eventprocess_basic_data:fieldset:inputField_3_abb156a1126282e4cf40d48283b4e76d:idabb156a1126282e4cf40d48283b4e76d:termSelect"
      case TermSelectInput => "genericSearchMask:search_e4ff321960e251186ac57567bec9f4ce:cm_exa_eventprocess_basic_data:fieldset:inputField_3_abb156a1126282e4cf40d48283b4e76d:idabb156a1126282e4cf40d48283b4e76d:termSelectInput"
      case TableColumns => "genSearchRes:id3df798d58b4bacd9:j_id_5q_l_hk_11:j_id_5q_l_hk_1b:cols"
      case NaviAboveTable => "genSearchRes:id3df798d58b4bacd9:j_id_5q_l_hk_11:j_id_5q_l_hk_83:j_id_5q_l_hk_87"
      case NaviBelowTable => "genSearchRes:id3df798d58b4bacd9:j_id_5q_l_hk_11:j_id_5q_l_hk_83:j_id_5q_l_hk_89"
      case TablePageSize => "genSearchRes:id3df798d58b4bacd9:j_id_5q_l_hk_11:j_id_5q_l_hk_ar:defaultTablePageSize"
      case SubmitSearch => "genericSearchMask_SUBMIT"
      case ViewState => "javax.faces.ViewState"
      case ScrollToAnchor => "SCROLL_TO_ANCHOR"
      case DisableAutoscroll => "DISABLE_AUTOSCROLL"
      case DisableValidation => "DISABLE_VALIDATION"
      case SearchMaskIdcl => "genericSearchMask:_idcl"
      case ResultsIdcl => "genSearchRes:_idcl"
    }
  }

  type Form = map<FormField, seq<string>>

  const AllFields: set<FormField> := {
    ActivePageElementId, RefreshButtonClickedId, NavigationPosition, AuthenticityToken,
    AutoScroll, Navi1NumRows, Navi2NumRows, SearchField, TermSelect, TermSelectInput,
    TableColumns, NaviAboveTable, NaviBelowTable, TablePageSize, SubmitSearch, ViewState,
    ScrollToAnchor, DisableAutoscroll, DisableValidation, SearchMaskIdcl, ResultsIdcl}

  /** `AllFields` lists every field. */
  lemma EveryFieldListed(f: FormField)
    ensures f in AllFields
  {
  }

  // ---------------------------------------------------------------------
  // Session state, replies and requests
  // ---------------------------------------------------------------------

  /** The errors a step can record, with the messages the program gives them. */
  datatype SessionError =
    | FetchSearchPageFailed(cause: string)
    | DocumentUnreadable(cause: string)
    | NoTokenField
    | TokenHasNoValue
    | SubmitFailed(cause: string)
    | ReadResultsFailed(cause: string)
    | RetrieveResultsFailed(cause: string)
  {
    function Message(): string {
      match this
      case FetchSearchPageFailed(c) => "failed to fetch search page: " + c
      case DocumentUnreadable(c) => "unable to read response document: " + c
      case NoTokenField => "no " + AuthTokenName + " field found"
      case TokenHasNoValue => AuthTokenName + " has no value"
      case SubmitFailed(c) => "failed to submit search parameters: " + c
      case ReadResultsFailed(c) => "failed to read search results: " + c
      case RetrieveResultsFailed(c) => "failed to retrieve search results: " + c
    }
  }

  /** The session: sticky first error, flow id, and the token `establish` found. */
  datatype Session = Session(err: Option<SessionError>, flowId: int, authenticityToken: string) {
    predicate Poisoned() { err.Some? }
  }

  /** An HTML element, reduced to its attributes. */
  datatype Element = Element(attrs: map<string, string>)

  /** A parsed page, reduced to its `input` elements in document order. */
  datatype Page = Page(inputs: seq<Element>)

  /**
   * What a request came back with: the request itself failed, its body could
   * not be read or parsed, or a page arrived.
   */
  datatype Reply = RequestFailed(cause: string) | UnreadableBody(cause: string) | Delivered(page: Page)

  datatype Request = Get(url: Url) | PostForm(url: Url, form: Form)

  /** The session after a step, and the request the step sent, if any. */
  datatype Step = Step(session: Session, sent: Option<Request>)

  // ---------------------------------------------------------------------
  // Operations
  // ---------------------------------------------------------------------

  /** `newSession`: no error, flow id 1, no token yet. */
  function NewSession(): (s: Session)
    ensures !s.Poisoned() && s.flowId == 1 && s.authenticityToken == ""
  {
    Session(None, 1, "")
  }

  /**
   * `flowURL`: the search page with the flow name and the execution key.
   * The key is a constant; the session, and its flow id, are not consulted.
   */
  function FlowUrl(s: Session): Url {
    Url(SearchUrl, map["_flowId" := [FlowName], "_flowExecutionKey" := [ExecutionKey]])
  }

  predicate IsTokenInput(e: Element) {
    "name" in e.attrs && e.attrs["name"] == AuthTokenName
  }

  /** The position of the first input named `authenticity_token`, if any. */
  function FirstTokenInput(inputs: seq<Element>): (r: Option<nat>)
    ensures r.None? <==> forall m :: 0 <= m < |inputs| ==> !IsTokenInput(inputs[m])
    ensures r.Some? ==> r.value < |inputs| && IsTokenInput(inputs[r.value])
    ensures r.Some? ==> forall m :: 0 <= m < r.value ==> !IsTokenInput(inputs[m])
  {
    if |inputs| == 0 then None
    else if IsTokenInput(inputs[0]) then Some(0)
    else
      match FirstTokenInput(inputs[1..])
      case None => None
      case Some(i) => Some(i + 1)
  }

  /**
   * The `value` attribute of the first token input. A page without a token
   * input yields an empty selection, which has no attribute either, so both
   * cases give `None`.
   */
  function TokenValue(page: Page): (r: Option<string>)
    ensures r.Some? ==> exists i :: TokenValueAt(page, i, r.value)
    ensures forall i, v :: TokenValueAt(page, i, v) ==> r == Some(v)
  {
    match FirstTokenInput(page.inputs)
    case None => None
    case Some(i) =>
      if "value" in page.inputs[i].attrs then
        assert TokenValueAt(page, i, page.inputs[i].attrs["value"]);
        Some(page.inputs[i].attrs["value"])
      else None
  }

  /** The first token input of `page` sits at `i` and has the value `v`. */
  ghost predicate TokenValueAt(page: Page, i: nat, v: string) {
    && i < |page.inputs|
    && IsTokenInput(page.inputs[i])
    && (forall m :: 0 <= m < i ==> !IsTokenInput(page.inputs[m]))
    && "value" in page.inputs[i].attrs
    && page.inputs[i].attrs["value"] == v
  }

  /**
   * `establish`: fetch the search page and take the token from it. A failed
   * fetch, an unreadable document, or a token input without a value poisons
   * the session; the program's check for a missing input can never fire,
   * so a missing input is reported as a token without a value.
   */
  function Establish(s: Session, reply: Reply): (r: Step)
    ensures s.Poisoned() ==> r == Step(s, None)
    ensures !s.Poisoned() ==> r.sent == Some(Get(FlowUrl(s)))
    ensures r.session.flowId == s.flowId
    ensures !r.session.Poisoned() <==> !s.Poisoned() && reply.Delivered? && TokenValue(reply.page).Some?
    ensures !r.session.Poisoned() ==> r.session.authenticityToken == TokenValue(reply.page).value
    ensures r.session.Poisoned() ==> r.session.authenticityToken == s.authenticityToken
    ensures !s.Poisoned() && reply.RequestFailed? ==> r.session.err == Some(FetchSearchPageFailed(reply.cause))
    ensures !s.Poisoned() && reply.UnreadableBody? ==> r.session.err == Some(DocumentUnreadable(reply.cause))
    ensures !s.Poisoned() && reply.Delivered? && TokenValue(reply.page).None? ==> r.session.err == Some(TokenHasNoValue)
    ensures r.session.err == Some(NoTokenField) ==> s.err == Some(NoTokenField)
  {
    if s.Poisoned() then Step(s, None)
    else
      var sent := Some(Get(FlowUrl(s)));
      match reply
      case RequestFailed(cause) => Step(s.(err := Some(FetchSearchPageFailed(cause))), sent)
      case UnreadableBody(cause) => Step(s.(err := Some(DocumentUnreadable(cause))), sent)
      case Delivered(page) =>
        match TokenValue(page)
        case None => Step(s.(err := Some(TokenHasNoValue)), sent)
        case Some(token) => Step(s.(authenticityToken := token), sent)
  }

  /** The value `submitSearch` posts in field `f`. */
  function FieldValue(f: FormField, token: string, input: string, sem: Semester): seq<string>
    requires ValidKind(sem)
  {
    match f
    case ActivePageElementId => [SearchMaskId]
    case RefreshButtonClickedId => [""]
    case NavigationPosition => ["studiesOffered,searchCourses"]
    case AuthenticityToken => [token]
    case AutoScroll => ["0,0"]
    case Navi1NumRows => ["300"]
    case Navi2NumRows => ["300"]
    case SearchField => [input]
    case TermSelect => [FmtSelect(sem)]
    case TermSelectInput => [FmtSelectInput(sem).value]
    case TableColumns => [
      "ActionsBefore",
      "sul.common.Unit.elementnr",
      "sul.plan.searchLecture.veranstTitle",
      "sul.common.Course.eventtypeId",
      "cm.exa.eventprocess.responsible_instructor",
      "cm.exa.eventprocess.instructor",
      "cm.exa.Unit.Orgunit",
      "ActionsAfter"]
    case NaviAboveTable => ["true"]
    case NaviBelowTable => ["false"]
    case TablePageSize => ["300"]
    case SubmitSearch => ["1"]
    case ViewState => [ExecutionKey]
    case ScrollToAnchor => []
    case DisableAutoscroll => ["true"]
    case DisableValidation => ["true"]
    case SearchMaskIdcl => ["genericSearchMask:buttonsBottom:search"]
    case ResultsIdcl => ["genSearchRes:id3df798d58b4bacd9:j_id_5q_l_hk_11:save"]
  }

  /**
   * The form `submitSearch` posts: every field, with the session's token,
   * the search text verbatim, both encodings of the semester, and the
   * constant execution key as view state.
   */
  function SearchForm(token: string, input: string, sem: Semester): (form: Form)
    requires ValidKind(sem)
    ensures forall f: FormField :: f in form
    ensures AuthenticityToken in form && form[AuthenticityToken] == [token]
    ensures SearchField in form && form[SearchField] == [input]
    ensures TermSelect in form && form[TermSelect] == [FmtSelect(sem)]
    ensures TermSelectInput in form && form[TermSelectInput] == [FmtSelectInput(sem).value]
    ensures ViewState in form && form[ViewState] == [ExecutionKey]
  {
    var form := map f | f in AllFields :: FieldValue(f, token, input, sem);
    assert form[AuthenticityToken] == FieldValue(AuthenticityToken, token, input, sem);
    assert form[SearchField] == FieldValue(SearchField, token, input, sem);
    assert form[TermSelect] == FieldValue(TermSelect, token, input, sem);
    assert form[TermSelectInput] == FieldValue(TermSelectInput, token, input, sem);
    assert form[ViewState] == FieldValue(ViewState, token, input, sem);
    forall f: FormField
      ensures f in form
    {
      EveryFieldListed(f);
    }
    form
  }

  /**
   * `submitSearch`: post the search form. Its display form of the semester
   * ends the process for an invalid kind, which is why an unpoisoned session
   * needs a valid one. A failed post or an unreadable answer poisons the
   * session; the answer itself is only echoed.
   */
  function SubmitSearchStep(s: Session, input: string, sem: Semester, reply: Reply): (r: Step)
    requires !s.Poisoned() ==> ValidKind(sem)
    ensures s.Poisoned() ==> r == Step(s, None)
    ensures !s.Poisoned() ==> r.sent == Some(PostForm(FlowUrl(s), SearchForm(s.authenticityToken, input, sem)))
    ensures r.session.flowId == s.flowId && r.session.authenticityToken == s.authenticityToken
    ensures !r.session.Poisoned() <==> !s.Poisoned() && reply.Delivered?
    ensures !s.Poisoned() && reply.RequestFailed? ==> r.session.err == Some(SubmitFailed(reply.cause))
    ensures !s.Poisoned() && reply.UnreadableBody? ==> r.session.err == Some(ReadResultsFailed(reply.cause))
  {
    if s.Poisoned() then Step(s, None)
    else
      var sent := Some(PostForm(FlowUrl(s), SearchForm(s.authenticityToken, input, sem)));
      match reply
      case RequestFailed(cause) => Step(s.(err := Some(SubmitFailed(cause))), sent)
      case UnreadableBody(cause) => Step(s.(err := Some(ReadResultsFailed(cause))), sent)
      case Delivered(_) => Step(s, sent)
  }

  /**
   * `viewSearchResults`: fetch the flow page again. A failed fetch or an
   * unreadable answer poisons the session; the answer is only echoed.
   */
  function ViewSearchResults(s: Session, reply: Reply): (r: Step)
    ensures s.Poisoned() ==> r == Step(s, None)
    ensures !s.Poisoned() ==> r.sent == Some(Get(FlowUrl(s)))
    ensures r.session.flowId == s.flowId && r.session.authenticityToken == s.authenticityToken
    ensures !r.session.Poisoned() <==> !s.Poisoned() && reply.Delivered?
    ensures !s.Poisoned() && reply.RequestFailed? ==> r.session.err == Some(RetrieveResultsFailed(reply.cause))
    ensures !s.Poisoned() && reply.UnreadableBody? ==> r.session.err == Some(ReadResultsFailed(reply.cause))
  {
    if s.Poisoned() then Step(s, None)
    else
      var sent := Some(Get(FlowUrl(s)));
      match reply
      case RequestFailed(cause) => Step(s.(err := Some(RetrieveResultsFailed(cause))), sent)
      case UnreadableBody(cause) => Step(s.(err := Some(ReadResultsFailed(cause))), sent)
      case Delivered(_) => Step(s, sent)
  }

  // ---------------------------------------------------------------------
  // Sequences of steps
  // ---------------------------------------------------------------------

  /** A call of one of the three steps, with the reply its request gets. */
  datatype Action =
    | EstablishCall(reply: Reply)
    | SubmitCall(input: string, sem: Semester, reply: Reply)
    | ViewCall(reply: Reply)

  /**
   * A step the program can take from `s`: a submit reached on a clean
   * session formats its semester, so the kind must be one the display form
   * accepts; on a poisoned session `submitSearch` returns before that.
   */
  predicate Defined(s: Session, a: Action) {
    a.SubmitCall? && !s.Poisoned() ==> ValidKind(a.sem)
  }

  function Apply(s: Session, a: Action): Step
    requires Defined(s, a)
  {
    match a
    case EstablishCall(reply) => Establish(s, reply)
    case SubmitCall(input, sem, reply) => SubmitSearchStep(s, input, sem, reply)
    case ViewCall(reply) => ViewSearchResults(s, reply)
  }

  /** Every step of the sequence is one the program can take from the session it reaches. */
  predicate Runnable(s: Session, actions: seq<Action>)
    decreases |actions|
  {
    |actions| == 0 || (Defined(s, actions[0]) && Runnable(Apply(s, actions[0]).session, actions[1..]))
  }

  /** The final session and the requests sent, in order, by a sequence of steps. */
  datatype Trace = Trace(session: Session, sent: seq<Request>)

  function Sent(r: Option<Request>): seq<Request> {
    match r
    case None => []
    case Some(req) => [req]
  }

  function Run(s: Session, actions: seq<Action>): Trace
    requires Runnable(s, actions)
    decreases |actions|
  {
    if |actions| == 0 then Trace(s, [])
    else
      var step := Apply(s, actions[0]);
      var rest := Run(step.session, actions[1..]);
      Trace(rest.session, Sent(step.sent) + rest.sent)
  }

  // ---------------------------------------------------------------------
  // Properties of runs
  // ---------------------------------------------------------------------

  /** Once poisoned, every sequence of steps can run, sends nothing and changes nothing. */
  lemma {:induction false} PoisonedRunIsInert(s: Session, actions: seq<Action>)
    requires s.Poisoned()
    ensures Runnable(s, actions)
    ensures Run(s, actions) == Trace(s, [])
    decreases |actions|
  {
    if |actions| > 0 {
      PoisonedRunIsInert(s, actions[1..]);
    }
  }

  /** The first element and the rest of a concatenation whose first part is not empty. */
  lemma AppendTail<T>(a: seq<T>, b: seq<T>)
    requires |a| > 0
    ensures (a + b)[0] == a[0] && (a + b)[1..] == a[1..] + b
  {
  }

  /** Concatenation is associative. */
  lemma AppendAssoc<T>(a: seq<T>, b: seq<T>, c: seq<T>)
    ensures a + (b + c) == (a + b) + c
  {
  }

  /** A concatenation can run exactly when its second part can run from where the first part ends. */
  lemma {:induction false} RunnableAppend(s: Session, pre: seq<Action>, post: seq<Action>)
    requires Runnable(s, pre)
    ensures Runnable(s, pre + post) <==> Runnable(Run(s, pre).session, post)
    decreases |pre|
  {
    if |pre| == 0 {
      assert pre + post == post;
    } else {
      AppendTail(pre, post);
      RunnableAppend(Apply(s, pre[0]).session, pre[1..], post);
    }
  }

  /** Running two sequences one after the other is running their concatenation. */
  lemma {:induction false} RunAppend(s: Session, pre: seq<Action>, post: seq<Action>)
    requires Runnable(s, pre) && Runnable(Run(s, pre).session, post)
    ensures Runnable(s, pre + post)
    ensures var mid := Run(s, pre);
      Run(s, pre + post) == Trace(Run(mid.session, post).session, mid.sent + Run(mid.session, post).sent)
    decreases |pre|
  {
    RunnableAppend(s, pre, post);
    if |pre| == 0 {
      assert pre + post == post;
    } else {
      AppendTail(pre, post);
      var step := Apply(s, pre[0]);
      RunAppend(step.session, pre[1..], post);
      var mid := Run(step.session, pre[1..]);
      var tail := Run(mid.session, post);
      assert Run(s, pre) == Trace(mid.session, Sent(step.sent) + mid.sent);
      assert Run(s, pre + post) == Trace(tail.session, Sent(step.sent) + (mid.sent + tail.sent));
      AppendAssoc(Sent(step.sent), mid.sent, tail.sent);
    }
  }

  /** The first error recorded stays the session's error whatever steps follow. */
  lemma FirstErrorWins(s: Session, pre: seq<Action>, post: seq<Action>, e: SessionError)
    requires Runnable(s, pre)
    requires Run(s, pre).session.err == Some(e)
    ensures Runnable(s, pre + post)
    ensures Run(s, pre + post).session == Run(s, pre).session
    ensures Run(s, pre + post).session.err == Some(e)
    ensures Run(s, pre + post).sent == Run(s, pre).sent
  {
    PoisonedRunIsInert(Run(s, pre).session, post);
    RunAppend(s, pre, post);
  }

  /** No step changes the flow id, and every request goes to the same flow URL. */
  lemma {:induction false} FlowIsFixed(s: Session, actions: seq<Action>)
    requires Runnable(s, actions)
    ensures Run(s, actions).session.flowId == s.flowId
    ensures forall i :: 0 <= i < |Run(s, actions).sent| ==> Run(s, actions).sent[i].url == FlowUrl(s)
    decreases |actions|
  {
    if |actions| > 0 {
      FlowIsFixed(Apply(s, actions[0]).session, actions[1..]);
    }
  }

  /**
   * Starting from a new session the flow id stays 1, and every request
   * carries the execution key `e1s1`; every posted form does too, as its
   * view state.
   */
  lemma ExecutionKeyIsConstant(actions: seq<Action>)
    requires Runnable(NewSession(), actions)
    ensures Run(NewSession(), actions).session.flowId == 1
    ensures forall req :: req in Run(NewSession(), actions).sent ==>
      "_flowExecutionKey" in req.url.query && req.url.query["_flowExecutionKey"] == [ExecutionKey]
    ensures forall req :: req in Run(NewSession(), actions).sent && req.PostForm? ==>
      ViewState in req.form && req.form[ViewState] == [ExecutionKey]
  {
    FlowIsFixed(NewSession(), actions);
    PostsCarryExecutionKey(NewSession(), actions);
  }

  /** Every posted form holds every search field and the constant execution key as view state. */
  lemma {:induction false} PostsCarryExecutionKey(s: Session, actions: seq<Action>)
    requires Runnable(s, actions)
    ensures forall req :: req in Run(s, actions).sent && req.PostForm? ==>
      (forall f: FormField :: f in req.form) && req.form[ViewState] == [ExecutionKey]
    decreases |actions|
  {
    if |actions| > 0 {
      PostsCarryExecutionKey(Apply(s, actions[0]).session, actions[1..]);
    }
  }

  /**
   * The sessions a run passes through: `r[i]` is the session step `i`
   * starts from, and the last one is the session the run ends in.
   */
  function States(s: Session, actions: seq<Action>): (r: seq<Session>)
    requires Runnable(s, actions)
    ensures |r| == |actions| + 1 && r[0] == s
    ensures forall i :: 0 <= i < |actions| ==> Defined(r[i], actions[i]) && r[i + 1] == Apply(r[i], actions[i]).session
    ensures r[|actions|] == Run(s, actions).session
    decreases |actions|
  {
    if |actions| == 0 then [s]
    else
      var rest := States(Apply(s, actions[0]).session, actions[1..]);
      assert forall i :: 1 <= i <= |actions| ==> ([s] + rest)[i] == rest[i - 1];
      [s] + rest
  }

  /** `a` is an `establish` whose page carries the token `tok`. */
  predicate EstablishedToken(a: Action, tok: string) {
    a.EstablishCall? && a.reply.Delivered? && TokenValue(a.reply.page) == Some(tok)
  }

  /** Step `i`, started from session `r[i]`, is an `establish` that succeeds with token `tok`. */
  predicate SucceedsAt(r: seq<Session>, actions: seq<Action>, i: int, tok: string) {
    0 <= i < |actions| && i < |r| && !r[i].Poisoned() && EstablishedToken(actions[i], tok)
  }

  /**
   * Step `i` of the run is an `establish` that succeeds with token `tok`:
   * the session is still clean when it is reached and its page carries
   * `tok`.
   */
  predicate EstablishesAt(s: Session, actions: seq<Action>, i: int, tok: string)
    requires Runnable(s, actions)
  {
    SucceedsAt(States(s, actions), actions, i, tok)
  }

  /** The token a session holds after step `a`: the page's value when `a` is a successful `establish`. */
  function NextToken(s: Session, a: Action): string {
    if !s.Poisoned() && a.EstablishCall? && a.reply.Delivered? && TokenValue(a.reply.page).Some?
    then TokenValue(a.reply.page).value
    else s.authenticityToken
  }

  /** One step changes the token only by a successful `establish`, which sets it to the page's value. */
  lemma StepToken(s: Session, a: Action)
    requires Defined(s, a)
    ensures Apply(s, a).session.authenticityToken == NextToken(s, a)
  {
  }

  /**
   * Along the sessions `r` of a run, the token of `r[k]` is the one of the
   * last `establish` before step `k` that succeeds, or the initial one.
   */
  lemma {:induction false} TokenAlong(r: seq<Session>, actions: seq<Action>, k: nat)
    requires |r| == |actions| + 1 && k <= |actions|
    requires forall i :: 0 <= i < |actions| ==> r[i + 1].authenticityToken == NextToken(r[i], actions[i])
    ensures var tok := r[k].authenticityToken;
      || (tok == r[0].authenticityToken && forall i, t :: i < k ==> !SucceedsAt(r, actions, i, t))
      || exists i :: i < k && SucceedsAt(r, actions, i, tok) && forall j, t :: i < j < k ==> !SucceedsAt(r, actions, j, t)
  {
    if k > 0 {
      TokenAlong(r, actions, k - 1);
      var a := actions[k - 1];
      var tok := r[k].authenticityToken;
      assert tok == NextToken(r[k - 1], a);
      if !r[k - 1].Poisoned() && a.EstablishCall? && a.reply.Delivered? && TokenValue(a.reply.page).Some? {
        assert SucceedsAt(r, actions, k - 1, tok);
      } else {
        assert tok == r[k - 1].authenticityToken;
      }
    }
  }

  /**
   * The token after a run is the one delivered to the last `establish`
   * that succeeds, or the initial token when no `establish` succeeds.
   */
  lemma TokenIsLastEstablished(s: Session, actions: seq<Action>)
    requires Runnable(s, actions)
    ensures var tok := Run(s, actions).session.authenticityToken;
      || (tok == s.authenticityToken && forall i, t :: !EstablishesAt(s, actions, i, t))
      || exists i :: EstablishesAt(s, actions, i, tok) && forall j, t :: i < j ==> !EstablishesAt(s, actions, j, t)
  {
    var r := States(s, actions);
    var n := |actions|;
    forall i | 0 <= i < n
      ensures r[i + 1].authenticityToken == NextToken(r[i], actions[i])
    {
      StepToken(r[i], actions[i]);
    }
    TokenAlong(r, actions, n);
    var tok := r[n].authenticityToken;
    if !(tok == r[0].authenticityToken && forall i, t :: i < n ==> !SucceedsAt(r, actions, i, t)) {
      var i :| i < n && SucceedsAt(r, actions, i, tok) && forall j, t :: i < j < n ==> !SucceedsAt(r, actions, j, t);
      assert EstablishesAt(s, actions, i, tok);
      forall j, t | i < j
        ensures !EstablishesAt(s, actions, j, t)
      {
        if j < n {
          assert !SucceedsAt(r, actions, j, t);
        }
      }
      assert EstablishesAt(s, actions, i, tok) && forall j, t :: i < j ==> !EstablishesAt(s, actions, j, t);
    } else {
      forall i, t
        ensures !EstablishesAt(s, actions, i, t)
      {
        if i < n {
          assert !SucceedsAt(r, actions, i, t);
        }
      }
    }
  }

  /** A run of one step is that step. */
  lemma RunOne(s: Session, a: Action)
    requires Defined(s, a)
    ensures Runnable(s, [a])
    ensures Run(s, [a]) == Trace(Apply(s, a).session, Sent(Apply(s, a).sent))
  {
    assert [a][1..] == [];
  }

  /** A run that ends without error sent one request per step. */
  lemma {:induction false} CleanRunSendsEveryRequest(s: Session, actions: seq<Action>)
    requires Runnable(s, actions)
    ensures |Run(s, actions).sent| <= |actions|
    ensures !Run(s, actions).session.Poisoned() ==> |Run(s, actions).sent| == |actions|
    decreases |actions|
  {
    if |actions| > 0 {
      var step := Apply(s, actions[0]);
      CleanRunSendsEveryRequest(step.session, actions[1..]);
      if step.session.Poisoned() {
        PoisonedRunIsInert(step.session, actions[1..]);
      }
    }
  }

  /** On a page with token `tok`, `establish` from a new session sends the flow GET and keeps the token. */
  lemma EstablishDelivered(page: Page, tok: string)
    requires TokenValue(page) == Some(tok)
    ensures Establish(NewSession(), Delivered(page)) == Step(Session(None, 1, tok), Some(Get(FlowUrl(NewSession()))))
  {
  }

  /** Establishing on a page with token `tok` and then submitting sends the flow GET and then the search form with `tok`. */
  lemma EstablishThenSubmitSends(input: string, sem: Semester, page: Page, tok: string, reply: Reply)
    requires ValidKind(sem)
    requires TokenValue(page) == Some(tok)
    ensures Runnable(NewSession(), [EstablishCall(Delivered(page)), SubmitCall(input, sem, reply)])
    ensures Run(NewSession(), [EstablishCall(Delivered(page)), SubmitCall(input, sem, reply)]).sent
      == [Get(FlowUrl(NewSession())), PostForm(FlowUrl(NewSession()), SearchForm(tok, input, sem))]
  {
    var actions := [EstablishCall(Delivered(page)), SubmitCall(input, sem, reply)];
    EstablishDelivered(page, tok);
    var submit := SubmitCall(input, sem, reply);
    assert actions[1..] == [submit];
    RunOne(Session(None, 1, tok), submit);
    assert Apply(Session(None, 1, tok), submit).sent == Some(PostForm(FlowUrl(NewSession()), SearchForm(tok, input, sem)));
  }

  /**
   * The program's sequence for an argument that parses: establishing on a
   * page with token `tok` and then submitting posts a form that carries
   * `tok`, the search text verbatim, and two term encodings that both name
   * the parsed semester.
   */
  lemma EstablishThenSubmit(arg: string, input: string, page: Page, tok: string, reply: Reply)
    requires ParseSemester(arg).Success?
    requires TokenValue(page) == Some(tok)
    ensures Runnable(NewSession(), [EstablishCall(Delivered(page)), SubmitCall(input, ParseSemester(arg).value, reply)])
    ensures var sem := ParseSemester(arg).value;
      var t := Run(NewSession(), [EstablishCall(Delivered(page)), SubmitCall(input, sem, reply)]);
      && |t.sent| == 2
      && t.sent[1] == PostForm(FlowUrl(NewSession()), SearchForm(tok, input, sem))
      && t.sent[1].form[AuthenticityToken] == [tok]
      && t.sent[1].form[SearchField] == [input]
      && ParseSelect(t.sent[1].form[TermSelect][0]) == Some(sem)
      && ParseSelectInput(t.sent[1].form[TermSelectInput][0]) == Some(sem)
  {
    var sem := ParseSemester(arg).value;
    EstablishThenSubmitSends(input, sem, page, tok, reply);
    ParsedSemesterEncodes(arg);
  }
}
