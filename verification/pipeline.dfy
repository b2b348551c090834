/**
 * The per-request pipeline `generateSQL`: compose the two chat messages,
 * ask the completion provider, unwrap its first choice and parse it as the
 * `{"sql": ...}` object. The provider and the JSON decoder are parameters.
 */
module Pipeline {
  import opened Wrappers
  import opened Text
  import opened Markdown

  datatype Role = System | User

  datatype Message = Message(role: Role, content: string)

  /** The chat-completion request: the model name and the conversation. */
  datatype ChatRequest = ChatRequest(model: string, messages: seq<Message>)

  /** The reply payload: one SQL string, not validated as SQL. */
  datatype AIResponse = AIResponse(sql: string)

  /**
   * The completion provider: a request yields the contents of the reply's
   * choices, in order, or the client's error text.
   */
  type Completion = ChatRequest -> Result<seq<string>, string>

  /** JSON decoding of a reply into `AIResponse`: the value, or the decoder's error text. */
  type ResponseParser = string -> Result<AIResponse, string>

  /** The outcome of `generateSQL`; `NoChoice` is the index panic on a reply without choices. */
  datatype Generation = Generated(response: AIResponse) | Failed(message: string) | NoChoice

  /** The model identifier of go-openai's `GPT4Turbo`. */
  const ModelName: string := "gpt-4-turbo"

  /** The fixed system instruction, verbatim. */
  const SystemInstruction: string :=
    "Sen bir SQL uzmanısın. Aşağıdaki MySQL şemasına göre gelen isteğe uygun optimize SQL sorgusu üret.\n"
    + "Cevabı sadece aşağıdaki JSON formatında döndür (önüne veya sonuna markdown işareti koyma):\n"
    + "{\n"
    + "  \"sql\": \"SQL SORGUSU\"\n"
    + "}"

  const SchemaHeading: string := "Veritabanı Şeması:\n"
  const QuestionLabel: string := "\n\nSORU: "

  /** The lead of the error reported when the unwrapped reply does not decode. */
  const FormatErrorLead: string := "OpenAI çıktısı geçersiz JSON: "
  const ReplyLabel: string := "\nCevap:\n"

  /** The user message: the schema under its heading, then the question, inserted verbatim. */
  function UserContent(schema: string, prompt: string): (r: string)
    ensures |r| == |SchemaHeading| + |schema| + |QuestionLabel| + |prompt|
    ensures r[..|SchemaHeading|] == SchemaHeading
    ensures r[|SchemaHeading|..|SchemaHeading| + |schema|] == schema
    ensures r[|r| - |prompt|..] == prompt
  {
    SchemaHeading + schema + QuestionLabel + prompt
  }

  /** Reads the question back out of a user message, given the schema it was composed with. */
  function PromptOf(content: string, schema: string): string
  {
    var start := |SchemaHeading| + |schema| + |QuestionLabel|;
    if start <= |content| then content[start..] else ""
  }

  /** The question survives composition unchanged, whatever it holds (the empty question included). */
  lemma PromptRoundTrip(schema: string, prompt: string)
    ensures PromptOf(UserContent(schema, prompt), schema) == prompt
  {
  }

  /** Different questions give different user messages under one schema. */
  lemma UserContentInjective(schema: string, p1: string, p2: string)
    requires UserContent(schema, p1) == UserContent(schema, p2)
    ensures p1 == p2
  {
    PromptRoundTrip(schema, p1);
    PromptRoundTrip(schema, p2);
  }

  function ComposeRequest(schema: string, prompt: string): (r: ChatRequest)
    ensures r.model == ModelName
    ensures |r.messages| == 2
    ensures r.messages[0] == Message(System, SystemInstruction)
    ensures r.messages[1] == Message(User, UserContent(schema, prompt))
    ensures PromptOf(r.messages[1].content, schema) == prompt
  {
    ChatRequest(ModelName, [Message(System, SystemInstruction), Message(User, UserContent(schema, prompt))])
  }

  /** The text handed to the decoder: the trimmed reply, with a json-tagged fence stripped. */
  function Unwrap(reply: string): (clean: string)
    ensures |clean| <= |reply|
    ensures !Occurs(TrimSpace(reply), Opener) ==> clean == TrimSpace(reply)
  {
    StripMarkdownJSON(TrimSpace(reply))
  }

  /** The decode error: the decoder's message, then the trimmed raw reply. */
  function FormatError(parseError: string, raw: string): (m: string)
    ensures |m| == |FormatErrorLead| + |parseError| + |ReplyLabel| + |raw|
    ensures m[..|FormatErrorLead|] == FormatErrorLead
    ensures m[|FormatErrorLead|..|FormatErrorLead| + |parseError|] == parseError
    ensures m[|m| - |raw|..] == raw
  {
    FormatErrorLead + parseError + ReplyLabel + raw
  }

  /**
   * `generateSQL`: a provider error is passed through unchanged; otherwise
   * the first choice is trimmed, unwrapped and decoded, and a decode error
   * carries the trimmed reply.
   */
  function GenerateSQL(schema: string, prompt: string, complete: Completion, parse: ResponseParser): (g: Generation)
    ensures complete(ComposeRequest(schema, prompt)).Err? ==>
              g == Failed(complete(ComposeRequest(schema, prompt)).error)
    ensures g.NoChoice? <==> complete(ComposeRequest(schema, prompt)) == Ok([])
    ensures g.Generated? ==>
              && complete(ComposeRequest(schema, prompt)).Ok?
              && |complete(ComposeRequest(schema, prompt)).value| > 0
              && parse(Unwrap(complete(ComposeRequest(schema, prompt)).value[0])) == Ok(g.response)
    ensures var c := complete(ComposeRequest(schema, prompt));
            c.Ok? && |c.value| > 0 ==>
              match parse(Unwrap(c.value[0]))
              case Ok(v) => g == Generated(v)
              case Err(e) => g == Failed(FormatError(e, TrimSpace(c.value[0])))
  {
    match complete(ComposeRequest(schema, prompt))
    case Err(e) => Failed(e)
    case Ok(choices) =>
      if |choices| == 0 then NoChoice
      else
        var raw := TrimSpace(choices[0]);
        match parse(StripMarkdownJSON(raw))
        case Ok(result) => Generated(result)
        case Err(e) => Failed(FormatError(e, raw))
  }

  /**
   * A reply the decoder rejects yields the format error built from the
   * decoder's message and the trimmed reply: the lead, then that message,
   * and the trimmed reply at the end.
   */
  lemma DecodeFailureCarriesReply(schema: string, prompt: string, complete: Completion, parse: ResponseParser, reply: string)
    requires complete(ComposeRequest(schema, prompt)).Ok?
    requires |complete(ComposeRequest(schema, prompt)).value| > 0
    requires complete(ComposeRequest(schema, prompt)).value[0] == reply
    requires parse(Unwrap(reply)).Err?
    ensures GenerateSQL(schema, prompt, complete, parse)
            == Failed(FormatError(parse(Unwrap(reply)).error, TrimSpace(reply)))
    ensures var m := GenerateSQL(schema, prompt, complete, parse).message;
            && m[..|FormatErrorLead|] == FormatErrorLead
            && m[|FormatErrorLead|..|FormatErrorLead| + |parse(Unwrap(reply)).error|] == parse(Unwrap(reply)).error
            && m[|m| - |TrimSpace(reply)|..] == TrimSpace(reply)
  {
  }

  /** Whitespace around the reply never changes what is decoded. */
  lemma UnwrapIgnoresPadding(a: string, reply: string, b: string)
    requires AllSpace(a) && AllSpace(b)
    ensures Unwrap(a + reply + b) == Unwrap(reply)
  {
    TrimSpacePadded(a, reply, b);
  }

  /**
   * A json-fenced reply and the same reply without the fence decode the same
   * text, when the fenced text holds no fence and does not end with a backtick.
   */
  lemma {:induction false} FencedReplyUnwrapsLikeBare(x: string)
    requires !Occurs(x, Fence) && !EndsWithBacktick(x)
    ensures Unwrap(Opener + x + Fence) == Unwrap(x)
  {
    var s := Opener + x + Fence;
    assert s[0] == '`' && s[|s| - 1] == '`';
    assert TrimSpace(s) == s;
    assert !Occurs([], Opener);
    assert [] + Opener + x + Fence + [] == s;
    StripFencedBlock([], x, []);
    TrimSpaceKeepsAbsence(x, Fence);
    if Occurs(TrimSpace(x), Opener) {
      var i :| 0 <= i <= |TrimSpace(x)| && OccursAt(TrimSpace(x), Opener, i);
      OpenerHasFence(TrimSpace(x), i);
      assert false;
    }
  }

  /**
   * A fenced and an unfenced reply around the same JSON lead to the same
   * decoded response.
   */
  lemma FencingDoesNotChangeResult(schema: string, prompt: string, fenced: Completion, bare: Completion,
                                   parse: ResponseParser, x: string)
    requires !Occurs(x, Fence) && !EndsWithBacktick(x)
    requires fenced(ComposeRequest(schema, prompt)) == Ok([Opener + x + Fence])
    requires bare(ComposeRequest(schema, prompt)) == Ok([x])
    requires parse(Unwrap(x)).Ok?
    ensures GenerateSQL(schema, prompt, fenced, parse) == GenerateSQL(schema, prompt, bare, parse)
            == Generated(parse(Unwrap(x)).value)
  {
    FencedReplyUnwrapsLikeBare(x);
  }
}
