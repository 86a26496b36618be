/** The state of the chat widget of src/components/chatWidget.tsx and the
    transitions of `toggleChat` and `handleSendMessage`. A send is split at
    its `await`: `BeginSend` is the synchronous part up to the call to
    `/api/chat`, and `CompleteSend` is the rest, given what the call
    produced. The clock (`Date.now()`) is a parameter, and the session id is
    the one the mount effect generated. */
module ChatWidget {
  import opened Options
  import opened JsStrings
  import opened JsNumbers
  import opened JsValues
  import ChatRoute

  datatype Sender = User | Ai

  /** `Message`: an id from the clock, who sent it, and its text. */
  datatype Message = Message(id: int, sender: Sender, text: string)

  /** The component's state: `isChatOpen`, `messages`, `currentInput`,
      `isLoading`, `error` and `sessionId`. */
  datatype Widget = Widget(
    open: bool,
    messages: seq<Message>,
    input: string,
    loading: bool,
    error: Option<string>,
    sessionId: string)

  /** What `fetch('/api/chat', ...)` resolves to: `ok`, `status`,
      `statusText`, and what `response.json()` gives. */
  datatype ApiResponse = ApiResponse(ok: bool, status: int, statusText: string, json: Completion<JsValue>)

  const UnexpectedResponse: string := "Received an unexpected response from the server."
  const FailedToGetResponse: string := "Sorry, failed to get a response. Please try again."

  /** The state after mounting: closed, empty, with the generated session
      id. It satisfies the invariant every event keeps, and there is nothing
      to send yet. */
  function Initial(sessionId: string): (r: Widget)
    ensures Consistent(r) && !CanSend(r)
    ensures |r.messages| == 0 && r.sessionId == sessionId
  {
    Widget(false, [], "", false, None, sessionId)
  }

  // ---------------------------------------------------------------------
  // toggleChat
  // ---------------------------------------------------------------------

  /** `toggleChat`: opens or closes the window; opening clears the error. */
  function Toggle(w: Widget): (r: Widget)
    ensures r.open == !w.open
    ensures r.error == if w.open then w.error else None
    ensures r.messages == w.messages && r.input == w.input && r.loading == w.loading
    ensures r.sessionId == w.sessionId
  {
    if w.open then w.(open := false) else w.(open := true, error := None)
  }

  /** Closing and reopening gives back the same window with the error
      cleared. */
  lemma ToggleTwice(w: Widget)
    ensures Toggle(Toggle(w)) == w.(error := None)
  {
  }

  // ---------------------------------------------------------------------
  // handleSendMessage
  // ---------------------------------------------------------------------

  /** The guard of `handleSendMessage`: something to send, no request in
      flight, and a session id. */
  predicate CanSend(w: Widget): (r: bool)
    ensures r <==> !AllSpace(w.input) && !w.loading && |w.sessionId| > 0
  {
    TrimEmptyIffAllSpace(w.input);
    |Trim(w.input)| > 0 && !w.loading && |w.sessionId| > 0
  }

  /** The synchronous part of `handleSendMessage`: a guarded send does
      nothing; otherwise the trimmed input becomes a user message, the input
      is cleared, loading starts and the error is cleared. */
  function BeginSend(w: Widget, now: int): (r: Widget)
    ensures !CanSend(w) ==> r == w
    ensures CanSend(w) ==>
      && r.messages == w.messages + [Message(now, User, Trim(w.input))]
      && r.input == "" && r.loading && r.error.None?
      && r.open == w.open && r.sessionId == w.sessionId
  {
    if !CanSend(w) then w
    else
      var text := Trim(w.input);
      w.(messages := w.messages + [Message(now, User, text)], input := "", loading := true, error := None)
  }

  /** The request body the widget sends: the trimmed input and the session
      id. */
  function RequestFields(w: Widget): (r: (string, string))
    requires CanSend(w)
    ensures |r.0| > 0 && Trim(r.0) == r.0 && r.1 == w.sessionId
  {
    TrimIdempotent(w.input);
    (Trim(w.input), w.sessionId)
  }

  /** What the widget sends always passes the route's two checks, so the
      route never answers it with "Message is required." or "Session ID is
      required.", whatever the configuration and the workflow do. */
  lemma SentRequestPassesChecks(w: Widget, webhookUrl: Option<string>, upstream: Completion<ChatRoute.Upstream>)
    requires CanSend(w)
    ensures ChatRoute.ValidMessage(Str(RequestFields(w).0))
    ensures ChatRoute.ValidSessionId(Str(RequestFields(w).1))
    ensures var body := ChatRoute.Post(Normal(ChatRoute.RequestBody(RequestFields(w).0, RequestFields(w).1)), webhookUrl, upstream).body;
      body != ChatRoute.ErrorBody(ChatRoute.MessageRequired) && body != ChatRoute.ErrorBody(ChatRoute.SessionRequired)
  {
    var (message, sessionId) := RequestFields(w);
    ChatRoute.RequestBodyFields(message, sessionId);
    ChatRoute.PassedChecksNeverBlamed(ChatRoute.RequestBody(message, sessionId), webhookUrl, upstream);
  }

  /** `errorData.error || errorMessage` followed by `new Error(...)`: the
      body's `error` field, converted to a string, when it is truthy;
      otherwise the status line. Reading `error` of a `null` body throws
      inside the inner `try`, which keeps the status line. */
  function ErrorResponseMessage(status: int, statusText: string, json: Completion<JsValue>): (r: string)
    ensures json.Normal? && GetProp(json.value, "error").Normal? && Truthy(GetProp(json.value, "error").value)
      ==> r == ToString(GetProp(json.value, "error").value)
    ensures json.Throw? || json.value.IsNullish() || !Truthy(GetProp(json.value, "error").value)
      ==> r == "Error: " + IntToString(status) + " " + statusText
  {
    var statusLine := "Error: " + IntToString(status) + " " + statusText;
    match json
    case Throw(_) => statusLine
    case Normal(errorData) =>
      match GetProp(errorData, "error")
      case Throw(_) => statusLine
      case Normal(v) => if Truthy(v) then ToString(v) else statusLine
  }

  /** The `try` block after the `await`: the reply, or what was thrown. */
  function Settle(response: Completion<ApiResponse>): (o: Completion<string>)
    ensures o.Normal? <==>
      && response.Normal? && response.value.ok && response.value.json.Normal?
      && Truthy(response.value.json.value)
      && GetProp(response.value.json.value, "reply").value.Str?
    ensures o.Normal? ==> o.value == GetProp(response.value.json.value, "reply").value.s
    ensures response.Throw? ==> o == Throw(response.thrown)
    ensures response.Normal? && !response.value.ok ==>
      o == Throw(ErrorObject(OtherError,
        ErrorResponseMessage(response.value.status, response.value.statusText, response.value.json)))
    ensures response.Normal? && response.value.ok && response.value.json.Throw? ==>
      o == Throw(response.value.json.thrown)
    ensures (&& response.Normal? && response.value.ok && response.value.json.Normal?
             && !(Truthy(response.value.json.value) && GetProp(response.value.json.value, "reply").value.Str?))
      ==> o == Throw(ErrorObject(OtherError, UnexpectedResponse))
  {
    match response
    case Throw(e) => Throw(e)
    case Normal(resp) =>
      if !resp.ok then
        Throw(ErrorObject(OtherError, ErrorResponseMessage(resp.status, resp.statusText, resp.json)))
      else
        match resp.json
        case Throw(e) => Throw(e)
        case Normal(data) =>
          if Truthy(data) && GetProp(data, "reply").value.Str? then Normal(GetProp(data, "reply").value.s)
          else Throw(ErrorObject(OtherError, UnexpectedResponse))
  }

  /** The `catch` block: an `Error`'s message, or a fixed apology for
      anything else that was thrown. */
  function CaughtMessage(e: Thrown): (r: string)
    ensures e.ErrorObject? ==> r == e.message
    ensures e.NonError? ==> r == FailedToGetResponse
  {
    match e
    case ErrorObject(_, message) => message
    case NonError(_) => FailedToGetResponse
  }

  /** The rest of `handleSendMessage`, once the call to `/api/chat` has
      produced `response`: a reply becomes an AI message, a failure becomes
      the error, and loading stops either way. With no request in flight
      there is nothing to complete. */
  function CompleteSend(w: Widget, response: Completion<ApiResponse>, now: int): (r: Widget)
    ensures !w.loading ==> r == w
    ensures !r.loading
    ensures r.open == w.open && r.input == w.input && r.sessionId == w.sessionId
    ensures w.loading ==> match Settle(response)
      case Normal(reply) => r.messages == w.messages + [Message(now + 1, Ai, reply)] && r.error == w.error
      case Throw(e) => r.messages == w.messages && r.error == Some(CaughtMessage(e))
  {
    if !w.loading then w
    else
      match Settle(response)
      case Normal(reply) => w.(messages := w.messages + [Message(now + 1, Ai, reply)], loading := false)
      case Throw(e) => w.(error := Some(CaughtMessage(e)), loading := false)
  }

  /** Any non-ok answer leaves the history alone and shows the body's
      truthy `error` field, or else the status line. */
  lemma NonOkShown(w: Widget, resp: ApiResponse, now: int)
    requires w.loading && !resp.ok
    ensures var r := CompleteSend(w, Normal(resp), now);
      r.messages == w.messages && r.error == Some(ErrorResponseMessage(resp.status, resp.statusText, resp.json))
  {
  }

  /** An ok answer whose JSON body has no string `reply` leaves the history
      alone and shows the fixed "unexpected response" message. */
  lemma MalformedReplyShown(w: Widget, resp: ApiResponse, data: JsValue, now: int)
    requires w.loading && resp.ok && resp.json == Normal(data)
    requires !Truthy(data) || !GetProp(data, "reply").value.Str?
    ensures var r := CompleteSend(w, Normal(resp), now);
      r.messages == w.messages && r.error == Some(UnexpectedResponse)
  {
  }

  /** A non-ok answer whose body carries an `error` string shows that
      string; the server's 400 "Message is required." is shown as is. */
  lemma ServerErrorShown(w: Widget, status: int, statusText: string, message: string, now: int)
    requires w.loading && |message| > 0
    ensures var body := Obj(map["error" := Str(message)]);
      CompleteSend(w, Normal(ApiResponse(false, status, statusText, Normal(body))), now).error == Some(message)
  {
    var body := Obj(map["error" := Str(message)]);
    assert GetProp(body, "error") == Normal(Str(message));
  }

  /** A non-ok answer whose body is not JSON shows the status line. */
  lemma StatusLineShown(w: Widget, status: int, statusText: string, e: Thrown, now: int)
    requires w.loading
    ensures CompleteSend(w, Normal(ApiResponse(false, status, statusText, Throw(e))), now).error
         == Some("Error: " + IntToString(status) + " " + statusText)
  {
  }

  // ---------------------------------------------------------------------
  // Runs of events
  // ---------------------------------------------------------------------

  /** What can happen to the widget: the toggle button, typing (ignored
      while the input is disabled), typing and submitting the form (which
      exist only while the window is open), and the end of the request in
      flight. */
  datatype Event =
    | ToggleClicked
    | Typed(text: string)
    | Submitted(now: int)
    | Answered(response: Completion<ApiResponse>, now: int)

  function Step(w: Widget, e: Event): (r: Widget)
    ensures e.Typed? ==> r.messages == w.messages && r.loading == w.loading && r.error == w.error && r.open == w.open
    ensures e.Typed? && w.loading ==> r.input == w.input
    ensures e.Typed? && !w.open ==> r == w
    ensures e.Typed? && w.open && !w.loading ==> r.input == e.text
    ensures e.Submitted? && !w.open ==> r == w
    ensures e.Submitted? && w.open && CanSend(w) ==> r.loading && |r.messages| == |w.messages| + 1
  {
    match e
    case ToggleClicked => Toggle(w)
    case Typed(text) => if w.loading || !w.open then w else w.(input := text)
    case Submitted(now) => if w.open then BeginSend(w, now) else w
    case Answered(response, now) => CompleteSend(w, response, now)
  }

  /** The state after the events, in order. */
  function Run(w: Widget, events: seq<Event>): Widget
    decreases |events|
  {
    if |events| == 0 then w else Run(Step(w, events[0]), events[1..])
  }

  /** Messages are only ever appended: no step removes or reorders one. */
  lemma StepAppends(w: Widget, e: Event)
    ensures w.messages <= Step(w, e).messages
  {
  }

  /** Over any run, the earlier messages stay in place. */
  lemma {:induction false} RunAppends(w: Widget, events: seq<Event>)
    ensures w.messages <= Run(w, events).messages
    decreases |events|
  {
    if |events| > 0 {
      StepAppends(w, events[0]);
      RunAppends(Step(w, events[0]), events[1..]);
    }
  }

  /** The number of messages from `sender`. */
  function Count(ms: seq<Message>, sender: Sender): nat {
    if |ms| == 0 then 0
    else Count(ms[..|ms| - 1], sender) + (if ms[|ms| - 1].sender == sender then 1 else 0)
  }

  lemma CountSnoc(ms: seq<Message>, m: Message, sender: Sender)
    ensures Count(ms + [m], sender) == Count(ms, sender) + (if m.sender == sender then 1 else 0)
  {
    assert (ms + [m])[..|ms|] == ms;
  }

  /** Every user message is trimmed and not blank. */
  predicate UserMessagesTrimmed(ms: seq<Message>) {
    forall i :: 0 <= i < |ms| && ms[i].sender == User ==> |ms[i].text| > 0 && Trim(ms[i].text) == ms[i].text
  }

  /** What holds of every state the widget reaches:
      - user messages are trimmed and not blank;
      - each AI message answers an earlier user message, and so does the
        request in flight: AI messages plus the pending request never
        outnumber user messages;
      - while a request is in flight no error is shown and the last message
        is the user's. */
  predicate Consistent(w: Widget) {
    && UserMessagesTrimmed(w.messages)
    && Count(w.messages, Ai) + (if w.loading then 1 else 0) <= Count(w.messages, User)
    && (w.loading ==> w.error.None? && |w.messages| > 0 && w.messages[|w.messages| - 1].sender == User)
  }

  /** Appending a trimmed, non-blank user message or an AI message keeps
      the user messages trimmed. */
  lemma AppendTrimmed(ms: seq<Message>, m: Message)
    requires UserMessagesTrimmed(ms)
    requires m.sender == User ==> |m.text| > 0 && Trim(m.text) == m.text
    ensures UserMessagesTrimmed(ms + [m])
  {
    var r := ms + [m];
    forall i | 0 <= i < |r| && r[i].sender == User
      ensures |r[i].text| > 0 && Trim(r[i].text) == r[i].text
    {
      if i < |ms| {
        assert r[i] == ms[i];
      }
    }
  }

  /** An accepted submit keeps the widget consistent. */
  lemma SubmitConsistent(w: Widget, now: int)
    requires Consistent(w) && CanSend(w)
    ensures Consistent(BeginSend(w, now))
  {
    var m := Message(now, User, Trim(w.input));
    TrimIdempotent(w.input);
    AppendTrimmed(w.messages, m);
    CountSnoc(w.messages, m, Ai);
    CountSnoc(w.messages, m, User);
  }

  /** Completing the request in flight keeps the widget consistent. */
  lemma AnswerConsistent(w: Widget, response: Completion<ApiResponse>, now: int)
    requires Consistent(w) && w.loading
    ensures Consistent(CompleteSend(w, response, now))
  {
    match Settle(response)
    case Normal(reply) =>
      var m := Message(now + 1, Ai, reply);
      AppendTrimmed(w.messages, m);
      CountSnoc(w.messages, m, Ai);
      CountSnoc(w.messages, m, User);
    case Throw(_) =>
  }

  /** Every step keeps the widget consistent. */
  lemma StepConsistent(w: Widget, e: Event)
    requires Consistent(w)
    ensures Consistent(Step(w, e))
  {
    match e
    case ToggleClicked =>
    case Typed(_) =>
    case Submitted(now) =>
      if w.open && CanSend(w) {
        SubmitConsistent(w, now);
      }
    case Answered(response, now) =>
      if w.loading {
        AnswerConsistent(w, response, now);
      }
  }

  /** Every run keeps the widget consistent. */
  lemma {:induction false} RunConsistent(w: Widget, events: seq<Event>)
    requires Consistent(w)
    ensures Consistent(Run(w, events))
    decreases |events|
  {
    if |events| > 0 {
      StepConsistent(w, events[0]);
      RunConsistent(Step(w, events[0]), events[1..]);
    }
  }

  /** From mounting on, at most one request is ever in flight: a submit
      while loading changes nothing. */
  lemma SubmitWhileLoading(w: Widget, now: int)
    requires w.loading
    ensures Step(w, Submitted(now)) == w
  {
  }
}
