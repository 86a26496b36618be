/** The `POST` handler of src/app/api/chat/route.tsx as a function from what
    the handler observes to the response it returns. The handler reads the
    JSON request body, checks the message and the session id, checks that
    the workflow webhook is configured, forwards the message to it, and
    relays the workflow's reply; every exception ends in the `catch` block.

    The effects become inputs: `request` is what `request.json()` yields,
    `webhookUrl` the `N8N_WEBHOOK_URL` environment variable, and `upstream`
    what `fetch` yields. The response records the call the handler made to
    the webhook, if any, in `sent`. */
module ChatRoute {
  import opened Options
  import opened JsStrings
  import opened JsValues

  /** The JSON body of a response: `{error}` or `{reply}`. */
  datatype ApiBody = ErrorBody(error: string) | ReplyBody(reply: string)

  /** The POST the handler makes to the webhook, with the JSON fields it
      carries. */
  datatype Outbound = Outbound(url: string, message: string, sessionId: string)

  datatype RouteResponse = RouteResponse(status: int, body: ApiBody, sent: Option<Outbound>)

  /** What `fetch` resolves to: `ok`, the status, and what reading the body
      as text or as JSON would give. */
  datatype Upstream = Upstream(ok: bool, status: int, text: Completion<string>, json: Completion<JsValue>)

  const MessageRequired: string := "Message is required."
  const SessionRequired: string := "Session ID is required."
  const ConfigurationError: string := "Server configuration error."
  const WorkflowFailed: string := "Failed to process message with backend workflow."
  const InvalidFormat: string := "Received invalid response format from backend workflow."
  const InvalidJson: string := "Invalid JSON in request body."
  const InternalError: string := "An internal server error occurred."

  /** The message check: a truthy string that is not blank after `trim()`. */
  predicate ValidMessage(message: JsValue): (r: bool)
    ensures r <==> message.Str? && !AllSpace(message.s)
  {
    TrimEmptyIffAllSpace(if message.Str? then message.s else "");
    Truthy(message) && message.Str? && |Trim(message.s)| > 0
  }

  /** The session id check: a truthy string, so not `""`. */
  predicate ValidSessionId(sessionId: JsValue): (r: bool)
    ensures r <==> sessionId.Str? && |sessionId.s| > 0
  {
    Truthy(sessionId) && sessionId.Str?
  }

  /** `!n8nWebhookUrl` is false: the variable is set to a truthy string. */
  predicate Configured(webhookUrl: Option<string>): (r: bool)
    ensures r <==> webhookUrl.Some? && |webhookUrl.value| > 0
  {
    webhookUrl.Some? && Truthy(Str(webhookUrl.value))
  }

  /** An error response. */
  function Fail(status: int, error: string, sent: Option<Outbound>): RouteResponse {
    RouteResponse(status, ErrorBody(error), sent)
  }

  /** How the `try` block ends: with a response, or with an exception (and
      the webhook call made before it, if any). */
  datatype Outcome = Returned(response: RouteResponse) | Raised(thrown: Thrown, sent: Option<Outbound>)

  /** The `try` block, step by step in the order of the source. */
  function TryBlock(request: Completion<JsValue>, webhookUrl: Option<string>, upstream: Completion<Upstream>): (o: Outcome)
    ensures o.Returned? ==> o.response.status in {200, 400, 500, 502}
    ensures o.Returned? ==> (o.response.status == 200 <==> o.response.body.ReplyBody?)
  {
    match request
    case Throw(e) => Raised(e, None)
    case Normal(body) =>
      match GetProp(body, "message")
      case Throw(e) => Raised(e, None)
      case Normal(message) =>
        var sessionId := GetProp(body, "sessionId").value;
        if !ValidMessage(message) then Returned(Fail(400, MessageRequired, None))
        else if !ValidSessionId(sessionId) then Returned(Fail(400, SessionRequired, None))
        else if !Configured(webhookUrl) then Returned(Fail(500, ConfigurationError, None))
        else
          var sent := Some(Outbound(webhookUrl.value, message.s, sessionId.s));
          match upstream
          case Throw(e) => Raised(e, sent)
          case Normal(u) =>
            if !u.ok then
              match u.text
              case Throw(e) => Raised(e, sent)
              case Normal(_) => Returned(Fail(502, WorkflowFailed, sent))
            else
              match u.json
              case Throw(e) => Raised(e, sent)
              case Normal(data) =>
                if Truthy(data) && GetProp(data, "reply").value.Str? then
                  Returned(RouteResponse(200, ReplyBody(GetProp(data, "reply").value.s), sent))
                else Returned(Fail(502, InvalidFormat, sent))
  }

  /** `error instanceof SyntaxError && error.message.includes('JSON')`. */
  predicate IsJsonSyntaxError(e: Thrown) {
    e.ErrorObject? && e.kind == SyntaxError && Includes(e.message, "JSON")
  }

  /** The catch test reads as written: a `SyntaxError` whose message holds
      `"JSON"` at some position. */
  lemma JsonSyntaxErrorIff(e: Thrown)
    ensures IsJsonSyntaxError(e)
        <==> e.ErrorObject? && e.kind == SyntaxError
             && exists i: nat :: OccursAt(e.message, "JSON", i)
  {
    if e.ErrorObject? {
      IncludesIff(e.message, "JSON");
    }
  }

  /** The `catch` block: a JSON syntax error is blamed on the request body,
      anything else is an internal error. */
  function Catch(e: Thrown, sent: Option<Outbound>): (r: RouteResponse)
    ensures r.status == 400 <==> IsJsonSyntaxError(e)
    ensures r.status in {400, 500} && r.body.ErrorBody? && r.sent == sent
  {
    if IsJsonSyntaxError(e) then Fail(400, InvalidJson, sent) else Fail(500, InternalError, sent)
  }

  /** `POST(request)`. Every path ends in 200, 400, 500 or 502, and only 200
      carries a reply. */
  function Post(request: Completion<JsValue>, webhookUrl: Option<string>, upstream: Completion<Upstream>): (r: RouteResponse)
    ensures r.status in {200, 400, 500, 502}
    ensures r.status == 200 <==> r.body.ReplyBody?
  {
    match TryBlock(request, webhookUrl, upstream)
    case Returned(response) => response
    case Raised(e, sent) => Catch(e, sent)
  }

  /** The request got as far as the webhook call: the body was read, both
      fields passed their checks, and the webhook is configured. */
  predicate Forwards(request: Completion<JsValue>, webhookUrl: Option<string>) {
    && request.Normal? && !request.value.IsNullish()
    && ValidMessage(GetProp(request.value, "message").value)
    && ValidSessionId(GetProp(request.value, "sessionId").value)
    && Configured(webhookUrl)
  }

  /** The call the handler makes when it forwards: the message and the
      session id exactly as received (the message is not trimmed). */
  function Forwarded(request: Completion<JsValue>, webhookUrl: Option<string>): Outbound
    requires Forwards(request, webhookUrl)
  {
    Outbound(webhookUrl.value, GetProp(request.value, "message").value.s, GetProp(request.value, "sessionId").value.s)
  }

  // ---------------------------------------------------------------------
  // The checks, in order
  // ---------------------------------------------------------------------

  /** A missing, non-string or blank message is rejected first, whatever the
      session id, the configuration and the workflow. */
  lemma MessageChecked(body: JsValue, webhookUrl: Option<string>, upstream: Completion<Upstream>)
    requires !body.IsNullish() && !ValidMessage(GetProp(body, "message").value)
    ensures Post(Normal(body), webhookUrl, upstream) == Fail(400, MessageRequired, None)
  {
  }

  /** With a valid message, a missing, empty or non-string session id is
      rejected next. */
  lemma SessionChecked(body: JsValue, webhookUrl: Option<string>, upstream: Completion<Upstream>)
    requires !body.IsNullish() && ValidMessage(GetProp(body, "message").value)
    requires !ValidSessionId(GetProp(body, "sessionId").value)
    ensures Post(Normal(body), webhookUrl, upstream) == Fail(400, SessionRequired, None)
  {
  }

  /** With a valid request, a missing or empty webhook URL is a server
      error and nothing is sent. */
  lemma ConfigurationChecked(body: JsValue, webhookUrl: Option<string>, upstream: Completion<Upstream>)
    requires !body.IsNullish() && ValidMessage(GetProp(body, "message").value)
    requires ValidSessionId(GetProp(body, "sessionId").value)
    requires !Configured(webhookUrl)
    ensures Post(Normal(body), webhookUrl, upstream) == Fail(500, ConfigurationError, None)
  {
  }

  /** The webhook is called exactly when the request passes every check and
      the URL is configured, and then with the fields as received. */
  lemma SentIffForwards(request: Completion<JsValue>, webhookUrl: Option<string>, upstream: Completion<Upstream>)
    ensures Post(request, webhookUrl, upstream).sent.Some? <==> Forwards(request, webhookUrl)
    ensures Forwards(request, webhookUrl) ==>
      Post(request, webhookUrl, upstream).sent == Some(Forwarded(request, webhookUrl))
  {
  }

  /** A message with surrounding blanks is forwarded with its blanks. */
  lemma ExampleUntrimmed(webhookUrl: string, upstream: Completion<Upstream>)
    requires |webhookUrl| > 0
    ensures Post(Normal(RequestBody(" hi ", "s1")), Some(webhookUrl), upstream).sent
         == Some(Outbound(webhookUrl, " hi ", "s1"))
  {
    RequestBodyFields(" hi ", "s1");
    NotBlank(" hi ", 1);
    SentIffForwards(Normal(RequestBody(" hi ", "s1")), Some(webhookUrl), upstream);
  }

  /** The JSON object `{message, sessionId}` with two string fields. */
  function RequestBody(message: string, sessionId: string): JsValue {
    Obj(map["message" := Str(message), "sessionId" := Str(sessionId)])
  }

  lemma RequestBodyFields(message: string, sessionId: string)
    ensures GetProp(RequestBody(message, sessionId), "message") == Normal(Str(message))
    ensures GetProp(RequestBody(message, sessionId), "sessionId") == Normal(Str(sessionId))
  {
  }

  /** A string with a non-blank character is a valid message. */
  lemma NotBlank(s: string, i: nat)
    requires i < |s| && !IsSpace(s[i])
    ensures ValidMessage(Str(s))
  {
    TrimEmptyIffAllSpace(s);
  }

  /** A body that passes both checks is never answered with either check's
      message, whatever happens after them. */
  lemma PassedChecksNeverBlamed(body: JsValue, webhookUrl: Option<string>, upstream: Completion<Upstream>)
    requires !body.IsNullish()
    requires ValidMessage(GetProp(body, "message").value) && ValidSessionId(GetProp(body, "sessionId").value)
    ensures var r := Post(Normal(body), webhookUrl, upstream);
      r.body != ErrorBody(MessageRequired) && r.body != ErrorBody(SessionRequired)
  {
  }

  // ---------------------------------------------------------------------
  // The workflow's answer
  // ---------------------------------------------------------------------

  /** A workflow failure is reported as 502 with a fixed message: the
      failing workflow's status and body text never reach the client. */
  lemma WorkflowFailureHidden(request: Completion<JsValue>, webhookUrl: Option<string>, u1: Upstream, u2: Upstream)
    requires Forwards(request, webhookUrl)
    requires !u1.ok && !u2.ok && u1.text.Normal? && u2.text.Normal?
    ensures Post(request, webhookUrl, Normal(u1)) == Post(request, webhookUrl, Normal(u2))
    ensures Post(request, webhookUrl, Normal(u1))
         == Fail(502, WorkflowFailed, Some(Forwarded(request, webhookUrl)))
  {
  }

  /** A 200 answer is exactly a forwarded request whose workflow answered ok
      with a JSON object holding a string `reply`; the body is that reply and
      nothing else. */
  lemma SuccessIff(request: Completion<JsValue>, webhookUrl: Option<string>, upstream: Completion<Upstream>)
    ensures var r := Post(request, webhookUrl, upstream);
      r.status == 200 <==>
        && Forwards(request, webhookUrl)
        && upstream.Normal? && upstream.value.ok && upstream.value.json.Normal?
        && Truthy(upstream.value.json.value)
        && GetProp(upstream.value.json.value, "reply").value.Str?
    ensures var r := Post(request, webhookUrl, upstream);
      r.status == 200 ==> r.body == ReplyBody(GetProp(upstream.value.json.value, "reply").value.s)
  {
  }

  /** An ok workflow answer without a string `reply` is a 502. */
  lemma ReplyNotString(request: Completion<JsValue>, webhookUrl: Option<string>, u: Upstream, data: JsValue)
    requires Forwards(request, webhookUrl)
    requires u.ok && u.json == Normal(data)
    requires !Truthy(data) || !GetProp(data, "reply").value.Str?
    ensures Post(request, webhookUrl, Normal(u)) == Fail(502, InvalidFormat, Some(Forwarded(request, webhookUrl)))
  {
  }

  // ---------------------------------------------------------------------
  // Exceptions
  // ---------------------------------------------------------------------

  /** A body that is not JSON makes `request.json()` throw a SyntaxError
      mentioning JSON: 400. Any other exception before the webhook call is
      a 500; nothing is sent either way. */
  lemma UnreadableRequest(e: Thrown, webhookUrl: Option<string>, upstream: Completion<Upstream>)
    ensures Post(Throw(e), webhookUrl, upstream)
         == if IsJsonSyntaxError(e) then Fail(400, InvalidJson, None) else Fail(500, InternalError, None)
  {
  }

  /** A JSON `null` body makes `body.message` throw a TypeError: a 500, not
      a 400. */
  lemma NullBody(webhookUrl: Option<string>, upstream: Completion<Upstream>)
    ensures Post(Normal(Null), webhookUrl, upstream) == Fail(500, InternalError, None)
  {
    assert !IsJsonSyntaxError(GetProp(Null, "message").thrown);
  }

  /** A failing `fetch` (a TypeError) is a 500 after the call was made. */
  lemma FetchFailure(request: Completion<JsValue>, webhookUrl: Option<string>, message: string)
    requires Forwards(request, webhookUrl)
    ensures Post(request, webhookUrl, Throw(ErrorObject(TypeError, message)))
         == Fail(500, InternalError, Some(Forwarded(request, webhookUrl)))
  {
  }

  // ---------------------------------------------------------------------
  // The workflow's body is not JSON
  // ---------------------------------------------------------------------

  /** As written, an ok workflow answer whose body is not JSON reaches the
      `catch` block as a SyntaxError mentioning JSON and is answered with
      400 "Invalid JSON in request body.", although the request was valid
      and had been forwarded. */
  lemma UpstreamNotJson(request: Completion<JsValue>, webhookUrl: Option<string>, u: Upstream, message: string)
    requires Forwards(request, webhookUrl)
    requires u.ok && u.json == Throw(ErrorObject(SyntaxError, message)) && Includes(message, "JSON")
    ensures Post(request, webhookUrl, Normal(u)) == Fail(400, InvalidJson, Some(Forwarded(request, webhookUrl)))
  {
  }

  /** The same on a concrete request: an HTML page from the workflow. */
  lemma ExampleUpstreamHtml(webhookUrl: string)
    requires |webhookUrl| > 0
    ensures Post(Normal(RequestBody("hi", "s1")), Some(webhookUrl), Normal(HtmlAnswer())).status == 400
  {
    var message := HtmlAnswer().json.thrown.message;
    RequestBodyFields("hi", "s1");
    NotBlank("hi", 0);
    assert message[|message| - 4..] == "JSON";
    IncludesAt(message, "JSON", |message| - 4);
    UpstreamNotJson(Normal(RequestBody("hi", "s1")), Some(webhookUrl), HtmlAnswer(), message);
  }

  /** An ok answer whose body is an HTML page, with the error V8 raises on
      parsing it as JSON. */
  function HtmlAnswer(): Upstream {
    Upstream(true, 200, Normal("<html>"),
      Throw(ErrorObject(SyntaxError, "Unexpected token '<', \"<html>\" is not valid JSON")))
  }

  /** The intended `catch` block: "Invalid JSON in request body." only for a
      failure to read the request itself, that is before anything was
      forwarded; a JSON failure afterwards is the workflow's malformed
      answer, a 502. */
  function CatchIntended(e: Thrown, sent: Option<Outbound>): (r: RouteResponse)
    ensures r.status == 400 <==> IsJsonSyntaxError(e) && sent.None?
    ensures r.status in {400, 500, 502} && r.body.ErrorBody? && r.sent == sent
  {
    if IsJsonSyntaxError(e) then
      if sent.None? then Fail(400, InvalidJson, sent) else Fail(502, InvalidFormat, sent)
    else Fail(500, InternalError, sent)
  }

  /** `POST` with the intended `catch` block. A 400 now always means that
      the request was at fault and nothing was forwarded. */
  function PostIntended(request: Completion<JsValue>, webhookUrl: Option<string>, upstream: Completion<Upstream>): (r: RouteResponse)
    ensures r.status in {200, 400, 500, 502}
    ensures r.status == 400 ==> r.sent.None?
  {
    match TryBlock(request, webhookUrl, upstream)
    case Returned(response) => response
    case Raised(e, sent) => CatchIntended(e, sent)
  }

  /** The intended handler answers as written except on exactly the
      responses that blame the request after forwarding it. */
  lemma IntendedDiffersOnlyThere(request: Completion<JsValue>, webhookUrl: Option<string>, upstream: Completion<Upstream>)
    ensures var r := Post(request, webhookUrl, upstream);
      PostIntended(request, webhookUrl, upstream) != r <==> r.status == 400 && r.sent.Some?
  {
  }

  /** On the HTML page from the workflow, the intended handler answers 502. */
  lemma IntendedUpstreamNotJson(request: Completion<JsValue>, webhookUrl: Option<string>, u: Upstream, message: string)
    requires Forwards(request, webhookUrl)
    requires u.ok && u.json == Throw(ErrorObject(SyntaxError, message)) && Includes(message, "JSON")
    ensures PostIntended(request, webhookUrl, Normal(u))
         == Fail(502, InvalidFormat, Some(Forwarded(request, webhookUrl)))
  {
  }
}
