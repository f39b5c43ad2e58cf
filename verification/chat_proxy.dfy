/**
 * The serverless chat endpoint (api/chat.ts): it checks the method, reads
 * `{ text, history }`, checks the upstream API key, prepends the system prompt
 * and appends the user's text, calls the chat-completion API, and answers
 * with the trimmed first choice. The upstream call and the environment are inputs.
 */
module ChatProxy {
  import opened Wrappers
  import opened ChatTypes
  import Text

  /** What `req.json()` produced: a parse failure, or the two fields the handler reads (`history` may be absent). */
  datatype RequestBody = Malformed(message: string) | Parsed(text: string, history: Option<seq<WireMessage>>)

  /** `req.method` and the body. */
  datatype Request = Request(verb: string, body: RequestBody)

  /** How the upstream call ended: it threw (network, bad JSON, no first choice), or it gave the first choice's content. */
  datatype UpstreamOutcome = UpstreamFailed(message: string) | UpstreamReplied(content: string)

  datatype Response = Response(status: int, body: ProxyBody)

  /** The response, and the message list sent upstream when the handler got that far. */
  datatype Handled = Handled(response: Response, upstream: Option<seq<WireMessage>>)

  /** The prefix of every caught error ("server error: "). */
  const ErrorPrefix: string := "שגיאת שרת: "

  const MethodNotAllowed: string := "Method Not Allowed"
  const MissingKey: string := "Missing API Key in Vercel settings"

  /** `!GROQ_API_KEY`: an unset or empty variable. */
  predicate KeyMissing(apiKey: Option<string>) {
    apiKey == None || apiKey == Some("")
  }

  /** The upstream message list: the system prompt, the history in order, then the user's text. */
  function UpstreamMessages(systemPrompt: string, history: seq<WireMessage>, text: string): (msgs: seq<WireMessage>)
    ensures |msgs| == |history| + 2
    ensures msgs[0] == WireMessage("system", systemPrompt)
    ensures msgs[1..|msgs| - 1] == history
    ensures msgs[|msgs| - 1] == WireMessage("user", text)
  {
    [WireMessage("system", systemPrompt)] + history + [WireMessage("user", text)]
  }

  /** `handler(req)`; `systemPrompt` is the fixed prompt text, left out as content. */
  function Handle(req: Request, apiKey: Option<string>, systemPrompt: string, upstream: UpstreamOutcome): (h: Handled)
    ensures req.verb != "POST" ==> h == Handled(Response(405, ErrorBody(MethodNotAllowed)), None)
    ensures req.verb == "POST" && req.body.Malformed? ==>
              h == Handled(Response(500, ErrorBody(ErrorPrefix + req.body.message)), None)
    ensures req.verb == "POST" && req.body.Parsed? && KeyMissing(apiKey) ==>
              h == Handled(Response(500, ErrorBody(MissingKey)), None)
    ensures h.upstream.Some? <==> req.verb == "POST" && req.body.Parsed? && !KeyMissing(apiKey)
    ensures h.upstream.Some? ==>
              h.upstream.value == UpstreamMessages(systemPrompt, req.body.history.GetOr([]), req.body.text)
    ensures h.upstream.Some? && upstream.UpstreamFailed? ==>
              h.response == Response(500, ErrorBody(ErrorPrefix + upstream.message))
    ensures h.upstream.Some? && upstream.UpstreamReplied? ==>
              h.response == Response(200, ReplyBody(Text.Trim(upstream.content)))
    ensures h.response.status == 200 <==> h.response.body.ReplyBody?
  {
    if req.verb != "POST" then
      Handled(Response(405, ErrorBody(MethodNotAllowed)), None)
    else
      match req.body
      case Malformed(message) =>
        Handled(Response(500, ErrorBody(ErrorPrefix + message)), None)
      case Parsed(text, history) =>
        if KeyMissing(apiKey) then
          Handled(Response(500, ErrorBody(MissingKey)), None)
        else
          var msgs := UpstreamMessages(systemPrompt, history.GetOr([]), text);
          match upstream
          case UpstreamFailed(message) =>
            Handled(Response(500, ErrorBody(ErrorPrefix + message)), Some(msgs))
          case UpstreamReplied(content) =>
            Handled(Response(200, ReplyBody(Text.Trim(content))), Some(msgs))
  }

  /** A request that is not a POST is refused before its body, the key or the upstream matter. */
  lemma NonPostIgnoresEverythingElse(verb: string, b1: RequestBody, b2: RequestBody,
                                     k1: Option<string>, k2: Option<string>, p1: string, p2: string,
                                     u1: UpstreamOutcome, u2: UpstreamOutcome)
    requires verb != "POST"
    ensures Handle(Request(verb, b1), k1, p1, u1) == Handle(Request(verb, b2), k2, p2, u2)
  {
  }

  /** An absent `history` behaves as the empty list. */
  lemma HistoryDefaultsToEmpty(verb: string, text: string, apiKey: Option<string>, systemPrompt: string, upstream: UpstreamOutcome)
    ensures Handle(Request(verb, Parsed(text, None)), apiKey, systemPrompt, upstream)
         == Handle(Request(verb, Parsed(text, Some([]))), apiKey, systemPrompt, upstream)
  {
  }

  /** A successful reply carries no surrounding white space. */
  lemma ReplyIsTrimmed(req: Request, apiKey: Option<string>, systemPrompt: string, upstream: UpstreamOutcome)
    requires req.verb == "POST" && req.body.Parsed? && !KeyMissing(apiKey) && upstream.UpstreamReplied?
    ensures var resp := Handle(req, apiKey, systemPrompt, upstream).response;
            && resp.status == 200 && resp.body.ReplyBody?
            && var r := resp.body.reply;
               r == [] || (!Text.IsSpace(r[0]) && !Text.IsSpace(r[|r| - 1]))
  {
  }
}
