/**
 * The `/getsql` handler (`handleSQLRequest` with `enableCORS`) as a pure
 * function from one request to its outcome. The body decoder's verdict, the
 * completion provider, the reply decoder and the response encoder are inputs.
 */
module Handler {
  import opened Wrappers
  import opened Pipeline

  /** The inbound payload `{"prompt": ...}`; no constraint on the prompt. */
  datatype PromptRequest = PromptRequest(prompt: string)

  /**
   * What the handler writes: a status, the headers it set and a body; or a
   * connection closed without a response, when the handler panics.
   */
  datatype Outcome = Reply(status: int, headers: map<string, string>, body: string) | ConnectionAborted

  const StatusOK: int := 200
  const StatusBadRequest: int := 400
  const StatusMethodNotAllowed: int := 405
  const StatusInternalServerError: int := 500

  const MethodOptions: string := "OPTIONS"
  const MethodPost: string := "POST"

  /** The three permissive cross-origin headers set on every response. */
  const CorsHeaders: map<string, string> := map[
    "Access-Control-Allow-Origin" := "*",
    "Access-Control-Allow-Methods" := "POST, GET, OPTIONS",
    "Access-Control-Allow-Headers" := "Content-Type"
  ]

  const MethodNotAllowedText: string := "Sadece POST isteği destekleniyor"
  const BadJsonText: string := "Geçersiz JSON formatı"
  const AIErrorLead: string := "AI hatası: "

  /** The headers map extends `base` with the same values. */
  predicate Includes(headers: map<string, string>, base: map<string, string>)
  {
    forall k :: k in base ==> k in headers && headers[k] == base[k]
  }

  /**
   * Go's `http.Error`: plain-text content type, no sniffing, and the message
   * followed by a newline as the body.
   */
  function HttpError(headers: map<string, string>, message: string, code: int): (r: Outcome)
    ensures r.Reply? && r.status == code && r.body == message + "\n"
    ensures Includes(r.headers, headers - {"Content-Type", "X-Content-Type-Options"})
    ensures "Content-Type" in r.headers && r.headers["Content-Type"] == "text/plain; charset=utf-8"
    ensures "X-Content-Type-Options" in r.headers && r.headers["X-Content-Type-Options"] == "nosniff"
  {
    Reply(code, headers["Content-Type" := "text/plain; charset=utf-8"]["X-Content-Type-Options" := "nosniff"],
          message + "\n")
  }

  /**
   * `handleSQLRequest`: OPTIONS is answered at once, other non-POST methods
   * are refused, an undecodable body is refused, and only then is the
   * pipeline run; its error becomes a 500, its result the JSON body.
   */
  function HandleSQLRequest(httpMethod: string, decoded: Option<PromptRequest>, schema: string,
                            complete: Completion, parse: ResponseParser,
                            encode: AIResponse -> string): (r: Outcome)
    ensures r.Reply? ==> Includes(r.headers, CorsHeaders)
    ensures httpMethod == MethodOptions ==> r == Reply(StatusOK, CorsHeaders, "")
    ensures httpMethod != MethodOptions && httpMethod != MethodPost ==> r.Reply? && r.status == StatusMethodNotAllowed
    ensures httpMethod == MethodPost && decoded.None? ==> r.Reply? && r.status == StatusBadRequest
    ensures r.Reply? && r.status == StatusInternalServerError ==>
              |AIErrorLead| <= |r.body| && r.body[..|AIErrorLead|] == AIErrorLead
    ensures r.ConnectionAborted? ==> httpMethod == MethodPost && decoded.Some?
  {
    var headers := CorsHeaders;
    if httpMethod == MethodOptions then
      Reply(StatusOK, headers, "")
    else if httpMethod != MethodPost then
      HttpError(headers, MethodNotAllowedText, StatusMethodNotAllowed)
    else
      match decoded
      case None => HttpError(headers, BadJsonText, StatusBadRequest)
      case Some(req) =>
        match GenerateSQL(schema, req.prompt, complete, parse)
        case Failed(message) => HttpError(headers, AIErrorLead + message, StatusInternalServerError)
        case NoChoice => ConnectionAborted
        case Generated(result) =>
          Reply(StatusOK, headers["Content-Type" := "application/json"], encode(result))
  }

  /** Every reply carries one of the four statuses the handler uses. */
  lemma StatusIsKnown(httpMethod: string, decoded: Option<PromptRequest>, schema: string,
                      complete: Completion, parse: ResponseParser, encode: AIResponse -> string)
    ensures var r := HandleSQLRequest(httpMethod, decoded, schema, complete, parse, encode);
            r.Reply? ==> r.status in {StatusOK, StatusBadRequest, StatusMethodNotAllowed, StatusInternalServerError}
  {
  }

  /**
   * A method other than POST is answered before the body is decoded or the
   * provider is called: the outcome depends on nothing else.
   */
  lemma NonPostIgnoresBodyAndPipeline(httpMethod: string,
                                      decoded1: Option<PromptRequest>, schema1: string, complete1: Completion,
                                      parse1: ResponseParser, encode1: AIResponse -> string,
                                      decoded2: Option<PromptRequest>, schema2: string, complete2: Completion,
                                      parse2: ResponseParser, encode2: AIResponse -> string)
    requires httpMethod != MethodPost
    ensures HandleSQLRequest(httpMethod, decoded1, schema1, complete1, parse1, encode1)
         == HandleSQLRequest(httpMethod, decoded2, schema2, complete2, parse2, encode2)
  {
  }

  /** An undecodable body is refused with 400 before the provider is called. */
  lemma BadBodySkipsPipeline(schema1: string, complete1: Completion, parse1: ResponseParser, encode1: AIResponse -> string,
                             schema2: string, complete2: Completion, parse2: ResponseParser, encode2: AIResponse -> string)
    ensures HandleSQLRequest(MethodPost, None, schema1, complete1, parse1, encode1)
         == HandleSQLRequest(MethodPost, None, schema2, complete2, parse2, encode2)
         == HttpError(CorsHeaders, BadJsonText, StatusBadRequest)
  {
  }

  /**
   * For a decoded POST the outcome follows the pipeline: 200 with the JSON
   * content type and the encoded response exactly when it produced one, 500
   * with the prefixed error text exactly when it failed.
   */
  lemma PostFollowsPipeline(req: PromptRequest, schema: string, complete: Completion,
                            parse: ResponseParser, encode: AIResponse -> string)
    ensures var r := HandleSQLRequest(MethodPost, Some(req), schema, complete, parse, encode);
            var g := GenerateSQL(schema, req.prompt, complete, parse);
            && (r.Reply? && r.status == StatusOK <==> g.Generated?)
            && (r.Reply? && r.status == StatusInternalServerError <==> g.Failed?)
            && (r.ConnectionAborted? <==> g.NoChoice?)
            && (g.Generated? ==> r.body == encode(g.response) && r.headers["Content-Type"] == "application/json")
            && (g.Failed? ==> r.body == AIErrorLead + g.message + "\n")
  {
  }

  /** A provider error reaches the client as a 500 whose text is the provider's message, unchanged, after the prefix. */
  lemma ProviderErrorReachesClient(req: PromptRequest, schema: string, complete: Completion,
                                   parse: ResponseParser, encode: AIResponse -> string)
    requires complete(ComposeRequest(schema, req.prompt)).Err?
    ensures HandleSQLRequest(MethodPost, Some(req), schema, complete, parse, encode)
         == HttpError(CorsHeaders, AIErrorLead + complete(ComposeRequest(schema, req.prompt)).error,
                      StatusInternalServerError)
  {
  }

  /** An empty prompt is not refused: the provider is asked, and a decodable reply is returned with 200. */
  lemma EmptyPromptIsAnswered(schema: string, complete: Completion, parse: ResponseParser,
                              encode: AIResponse -> string, reply: string, resp: AIResponse)
    requires complete(ComposeRequest(schema, "")) == Ok([reply])
    requires parse(Unwrap(reply)) == Ok(resp)
    ensures HandleSQLRequest(MethodPost, Some(PromptRequest("")), schema, complete, parse, encode)
         == Reply(StatusOK, CorsHeaders["Content-Type" := "application/json"], encode(resp))
  {
  }
}
