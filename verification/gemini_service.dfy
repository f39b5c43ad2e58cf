/**
 * The client side of the chat (services/geminiService.ts): `getRubyResponse`
 * posts the user's text and the translated history to the chat endpoint and
 * turns every failure into one of two fixed apologies, so it never throws.
 */
module GeminiService {
  import opened Wrappers
  import opened ChatTypes
  import Text
  import ChatProxy

  /** Shown when the failure looks like a connectivity problem (possibly an internet filter). */
  const ConnectivityText: string := "נראה שיש קושי בתקשורת (אולי חסימת אינטרנט). ניתן ליצור קשר ישירות עם טויבי ב-052-7179418."

  /** Shown for any other failure. */
  const GenericText: string := "סליחה, המוח הדיגיטלי שלי רגע בהפסקה. אפשר להשאיר הודעה לטויבי במייל או בטלפון."

  /** Only the widget's `user` role keeps its name; every other role becomes `assistant`. */
  function WireRole(role: Role): (s: string)
    ensures s == "user" <==> role == User
    ensures s == "assistant" <==> role == Model
  {
    assert |"user"| != |"assistant"|;
    match role
    case User => "user"
    case Model => "assistant"
  }

  /** The history as posted: one `{ role, content }` per message, same order, `content` the message text. */
  function WireHistory(history: seq<Message>): (wire: seq<WireMessage>)
    ensures |wire| == |history|
    ensures forall i | 0 <= i < |history| ::
              wire[i].content == history[i].text && wire[i].role == WireRole(history[i].role)
  {
    seq(|history|, i requires 0 <= i < |history| => WireMessage(WireRole(history[i].role), history[i].text))
  }

  /** Reading a posted entry back as a widget message. */
  function FromWire(w: WireMessage): Message {
    Message(if w.role == "user" then User else Model, w.content)
  }

  /** The translation loses nothing: reading the posted history back gives the original messages. */
  lemma WireHistoryRoundTrip(history: seq<Message>)
    ensures seq(|history|, i requires 0 <= i < |history| => FromWire(WireHistory(history)[i])) == history
  {
  }

  /** The JSON body posted to the endpoint. */
  datatype ChatRequest = ChatRequest(text: string, history: seq<WireMessage>)

  function RequestOf(userMessage: string, history: seq<Message>): (req: ChatRequest)
    ensures req.text == userMessage && |req.history| == |history|
  {
    ChatRequest(userMessage, WireHistory(history))
  }

  /** What `response.json()` yields: a parse failure, or the `error` and `reply` fields (each possibly absent). */
  datatype ResponseJson = NotJson(parseError: string) | Json(error: Option<string>, reply: Option<string>)

  /** How the request ended as far as the client can see. */
  datatype Outcome = FetchFailed(message: string) | Responded(ok: bool, json: ResponseJson)

  /** The message of the error the `try` block throws, or `None` when it returns normally. */
  function Thrown(o: Outcome): (m: Option<string>)
    ensures o.FetchFailed? ==> m == Some(o.message)
    ensures o.Responded? && o.json.NotJson? ==> m == Some(o.json.parseError)
    ensures o.Responded? && !o.ok && o.json.Json? ==>
              m == Some(if o.json.error.Some? && o.json.error.value != "" then o.json.error.value else "Server error")
    ensures m == None <==> o.Responded? && o.ok && o.json.Json?
  {
    match o
    case FetchFailed(message) => Some(message)
    case Responded(ok, json) =>
      match json
      case NotJson(parseError) => Some(parseError)
      case Json(error, _) =>
        if ok then None
        // `errorData.error || 'Server error'`: an absent or empty error string falls back.
        else Some(if error.Some? && error.value != "" then error.value else "Server error")
  }

  /** The catch block's test on the error message. */
  predicate LooksLikeConnectivity(message: string) {
    Text.Contains(message, "fetch") || Text.Contains(message, "Network")
  }

  /**
   * `getRubyResponse`: the server's `reply` on success (`None` models an absent
   * field, i.e. `undefined`), otherwise one of the two apologies. It never throws.
   */
  function RubyResponse(o: Outcome): (r: Option<string>)
    ensures Thrown(o) == None ==> r == o.json.reply
    ensures Thrown(o).Some? && LooksLikeConnectivity(Thrown(o).value) ==> r == Some(ConnectivityText)
    ensures Thrown(o).Some? && !LooksLikeConnectivity(Thrown(o).value) ==> r == Some(GenericText)
  {
    match Thrown(o)
    case None => o.json.reply
    case Some(message) =>
      if LooksLikeConnectivity(message) then Some(ConnectivityText) else Some(GenericText)
  }

  /** How the client reads one of the endpoint's responses: `ok` means a 2xx status. */
  function ClientView(resp: ChatProxy.Response): (o: Outcome)
    ensures o.Responded? && o.json.Json?
    ensures o.ok <==> 200 <= resp.status < 300
    ensures resp.body.ReplyBody? ==> o.json.reply == Some(resp.body.reply) && o.json.error == None
    ensures resp.body.ErrorBody? ==> o.json.error == Some(resp.body.error) && o.json.reply == None
  {
    Responded(200 <= resp.status < 300,
      match resp.body
      case ErrorBody(e) => Json(Some(e), None)
      case ReplyBody(r) => Json(None, Some(r)))
  }

  /**
   * End to end: the endpoint forwards the posted history after its system
   * prompt and before the user's text, so the upstream model sees
   * `|history| + 2` messages with the history in order.
   */
  lemma EndToEndMessages(userMessage: string, history: seq<Message>, apiKey: Option<string>,
                         systemPrompt: string, upstream: ChatProxy.UpstreamOutcome)
    requires !ChatProxy.KeyMissing(apiKey)
    ensures var req := RequestOf(userMessage, history);
            var h := ChatProxy.Handle(ChatProxy.Request("POST", ChatProxy.Parsed(req.text, Some(req.history))),
                                      apiKey, systemPrompt, upstream);
            && h.upstream.Some?
            && |h.upstream.value| == |history| + 2
            && (forall i | 0 <= i < |history| :: FromWire(h.upstream.value[i + 1]) == history[i])
            && h.upstream.value[|history| + 1] == WireMessage("user", userMessage)
  {
    var req := RequestOf(userMessage, history);
    var h := ChatProxy.Handle(ChatProxy.Request("POST", ChatProxy.Parsed(req.text, Some(req.history))),
                              apiKey, systemPrompt, upstream);
    var msgs := h.upstream.value;
    assert msgs[1..|msgs| - 1] == req.history;
    forall i | 0 <= i < |history| ensures FromWire(msgs[i + 1]) == history[i] {
      assert msgs[i + 1] == req.history[i];
    }
  }

  /**
   * End to end: when the endpoint's own upstream fetch fails with a message
   * mentioning "fetch", the user is shown the connectivity apology, because the
   * prefixed error travels back in the 500 response.
   */
  lemma UpstreamFetchFailureLooksLikeConnectivity(req: ChatProxy.Request, apiKey: Option<string>, systemPrompt: string,
                                                  pre: string, post: string)
    requires req.verb == "POST" && req.body.Parsed? && !ChatProxy.KeyMissing(apiKey)
    ensures var h := ChatProxy.Handle(req, apiKey, systemPrompt, ChatProxy.UpstreamFailed(pre + "fetch" + post));
            RubyResponse(ClientView(h.response)) == Some(ConnectivityText)
  {
    var message := pre + "fetch" + post;
    var e := ChatProxy.ErrorPrefix + message;
    assert e == (ChatProxy.ErrorPrefix + pre) + "fetch" + post;
    Text.ContainsInfix(ChatProxy.ErrorPrefix + pre, "fetch", post);
  }
}
