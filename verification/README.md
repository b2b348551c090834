# sqlmaster-ai: a verified model of the request core

sqlmaster-ai is a small Go service with one endpoint, `POST /getsql`. It takes a
natural-language question and answers with `{"sql": "..."}`. At startup it renders
the MySQL schema into a text block. For every request it sends that text and the
question to a chat-completion model. It strips an optional ```` ```json ```` fence
from the reply and decodes the JSON that is left.

This project models the deterministic parts of `main.go` in Dafny and proves
properties about them. The database, the model provider and the JSON library
become inputs.

| file | module | models |
|---|---|---|
| `wrappers.dfy` | `Wrappers` | `Option` and `Result`, standing in for Go's `(T, error)` pairs |
| `text.dfy` | `Text` | `strings.TrimSpace` using the whitespace set of `unicode.IsSpace`, plus a leftmost substring search |
| `markdown.dfy` | `Markdown` | `stripMarkdownJSON` and the semantics of its regular expression |
| `schema.dfy` | `Schema` | the startup loop that renders the schema text (`Column`, one entry per table) |
| `schema_layout.dfy` | `SchemaLayout` | the line structure of that text, read back line by line |
| `pipeline.dfy` | `Pipeline` | `generateSQL`: message composition, unwrapping, decode errors |
| `handler.dfy` | `Handler` | `handleSQLRequest` and `enableCORS` as one function from a request to its outcome |

Behaviour of the code worth knowing:

- A table whose columns cannot be read keeps its `Table: <name>` header. It gets no column lines and no blank line. The rendering loop then carries on with the next table.
- The fence regex matches the first "```json" and the first "```" after it, and only that pair. A ```` ```json ```` block whose text ends in a backtick closes one or two characters early. So "fenced and bare replies decode alike" holds only for text that contains no "```" and does not end in a backtick (`Markdown.StripFencedBlock`, `Pipeline.FencedReplyUnwrapsLikeBare`).
- Plain "```" fences and "```JSON" contain no "```json", so they are returned unchanged.
- `resp.Choices[0]` is read without checking that the reply has any choices. With no choices the handler panics. Go's HTTP server recovers from the panic and drops the connection without sending a response. This is modelled as `Generation.NoChoice` leading to `Outcome.ConnectionAborted`.
- Errors are written by Go's `http.Error`. It sets `Content-Type: text/plain; charset=utf-8` and `X-Content-Type-Options: nosniff`, and writes the message followed by a newline. The model includes these.

## Model

| member | source | states |
|---|---|---|
| Text.IsSpace | main.go:145 | The whitespace set `TrimSpace` removes is Go's `unicode.IsSpace`: among ASCII characters exactly the space and tab through carriage return, and nothing above U+3000. |
| Text.TrimSpace | main.go:145 | The trimmed reply neither starts nor ends with whitespace, and it is the reply itself when neither end is whitespace. |
| Text.TrimSpaceOfWhitespace | main.go:145 | A reply made only of whitespace trims to the empty text. |
| Text.TrimSpaceUnique | main.go:199 | Reference characterisation of trimming: any text without whitespace at its ends, with any whitespace around it, trims to exactly that text. |
| Text.TrimSpaceSplit | main.go:145 | Trimming removes only whitespace: the input is the result with whitespace added on both sides. |
| Text.TrimSpacePadded | main.go:145 | Extra whitespace around a reply does not change its trimmed form. |
| Text.TrimSpaceIdempotent | main.go:145-146 | Trimming text that was already trimmed changes nothing. |
| Text.TrimSpaceKeepsAbsence | main.go:199 | Trimming cannot create a substring the untrimmed text lacks. |
| Text.IndexFrom | main.go:196-197 | Returns the first position at or after the start where the pattern occurs, or none when it occurs nowhere from there on. |
| Markdown.StripMarkdownJSON | main.go:195-202 | Input without "```json" is returned unchanged, including plain and "```JSON" fences. The result is never longer than the input. |
| Markdown.StripReturnsLeftmostGroup | main.go:196-199 | When the regex `(?s)```json(.*?)```` matches, the result is the trimmed capture group of the leftmost match, with the lazy group ending at the first fence. |
| Markdown.StripWithoutMatch | main.go:197-201 | When the regex matches nowhere (no opener, or an opener with no fence after it), the input is returned unchanged. |
| Markdown.StripResultHasNoFence | main.go:196-199 | When a block is extracted, the result contains no "```" at all. |
| Markdown.StripIdempotent | main.go:195-202 | Stripping twice gives the same text as stripping once. |
| Markdown.OpenerNoOverlap | main.go:196 | Two "```json" openers cannot overlap, so an opener found after opener-free text is the leftmost one. |
| Markdown.StripFencedBlock | main.go:196-199 | For text before the block that holds no opener, `pre` + "```json" + X + "```" + `post` strips to the trimmed X. Here X holds no fence and does not end in a backtick, and `post` is ignored. |
| Schema.RenderSchema | main.go:66-77 | The schema text is empty exactly when there are no tables, and otherwise starts with the first table's `Table: <name>` header line. |
| Schema.AppendTable | main.go:67-76 | One iteration of the startup loop appends exactly that table's rendering to the text built so far: its header, then its column lines and a blank line unless the column read failed. |
| Schema.RenderSchemaAppend | main.go:66-77 | Rendering a concatenated table list equals concatenating the renderings, so each table contributes independently and in input order. |
| Schema.FailedTableKeepsHeader | main.go:66-72 | A table whose column read failed contributes only `Table: <name>\n` (no column lines, no blank line). The tables before and after it render as usual. |
| Schema.AppendColumns | main.go:73-75 | The column loop appends exactly one ` - <name> (<type>)\n` line per column, in order. |
| Schema.BuildSchema | main.go:66-77 | The startup loop builds exactly the rendered schema of the table list, failed tables included. |
| SchemaLayout.RenderSchemaIsJoinedLines | main.go:66-77 | The schema text is, line by line, one header per table, then (when the columns were read) one line per column and a blank line, each ending in a newline. |
| SchemaLayout.SchemaTextReadBack | main.go:66-77 | Assume no name or type contains a newline. Reading the text back line by line then finds exactly one header per table, naming the tables in order whether or not their listing failed. It also finds exactly one column line per column read, in order, and so as many as the columns read. |
| Pipeline.UserContent | main.go:136 | The user message starts with the schema heading, holds the schema text verbatim after it, and ends with the question verbatim. |
| Pipeline.PromptRoundTrip | main.go:136 | The question can be read back from the user message unchanged, the empty question included. |
| Pipeline.UserContentInjective | main.go:136 | Under one schema, different questions give different user messages. Nothing is escaped away or truncated. |
| Pipeline.ComposeRequest | main.go:121-139 | The request names the GPT-4 Turbo model and holds two messages: the fixed system instruction, then the user message built from the schema and the question (heading, schema verbatim, question verbatim), from which the question reads back unchanged. |
| Pipeline.Unwrap | main.go:145-146 | The text given to the decoder is never longer than the reply. When the trimmed reply holds no "```json", it is the trimmed reply itself. |
| Pipeline.FormatError | main.go:150 | The decode error starts with its fixed lead, then contains the decoder's message, and ends with the trimmed raw reply. |
| Pipeline.GenerateSQL | main.go:120-154 | A provider error is returned unchanged. A reply with no choices is the panic case, and only that reply. With at least one choice, a first choice that decodes after unwrapping yields exactly the decoded response, and one that does not yields the format error built from the decoder's message and the trimmed first choice. |
| Pipeline.DecodeFailureCarriesReply | main.go:145-151 | When the decoder rejects the unwrapped reply, the pipeline fails with the format error of the decoder's message and the trimmed reply: the lead, then the decoder's message, and the trimmed reply at the end. |
| Pipeline.UnwrapIgnoresPadding | main.go:145-146 | Whitespace around a reply does not change what gets decoded. |
| Pipeline.FencedReplyUnwrapsLikeBare | main.go:145-146 | A ```` ```json ```` fenced reply and the same text unfenced give the same text to the decoder. The text must hold no fence and must not end in a backtick. |
| Pipeline.FencingDoesNotChangeResult | main.go:141-153 | A provider answering with the fenced JSON and one answering with the bare JSON lead to the same decoded response. |
| Handler.HttpError | main.go:98-100 | An error reply has the given status, a plain-text content type, `X-Content-Type-Options: nosniff` and the message plus a newline as its body. It keeps the headers already set. |
| Handler.HandleSQLRequest | main.go:84-118 | Every reply carries the three CORS headers. OPTIONS gives 200 with an empty body. Other non-POST methods give 405. A POST with an undecodable body gives 400. Every 500 body starts with `AI hatası: `. Only a decoded POST can abort the connection. |
| Handler.StatusIsKnown | main.go:90-118 | A reply's status is always 200, 400, 405 or 500. |
| Handler.NonPostIgnoresBodyAndPipeline | main.go:93-101 | For every method other than POST, the outcome does not depend on the body, the schema, the provider, the decoder or the encoder. The request is answered before any of them are used. |
| Handler.BadBodySkipsPipeline | main.go:103-107 | A POST whose body does not decode gets the 400 error whatever the provider would answer. The provider is never consulted. |
| Handler.PostFollowsPipeline | main.go:109-117 | For a decoded POST the status is 200 exactly when the pipeline produced a response, with the JSON content type and the encoded response as body. It is 500 exactly when the pipeline failed, with `AI hatası: ` + error + newline as body. The connection is aborted exactly in the no-choice case. |
| Handler.ProviderErrorReachesClient | main.go:109-113 | A provider error reaches the client as a 500 carrying the provider's message unchanged after the prefix. |
| Handler.EmptyPromptIsAnswered | main.go:103-117 | An empty prompt is not rejected. The provider is asked, and a decodable reply comes back as 200 with the encoded response. |

## Left out

- `getTables` and `getColumns` (main.go:156-193) are database queries. Only their outputs are modelled: the ordered table list and, per table, either its columns or a failure marker.
- The failed column read is also logged with `log.Printf` (main.go:70). Logging is not modelled.
- The chat-completion call (main.go:121-140) is a network call. It is the `Completion` parameter, a function from the request to either the choices' contents or an error text. Retries, timeouts and cancellation do not exist in the source.
- JSON decoding of the request body is an `Option<PromptRequest>` input. JSON decoding of the reply (`json.Unmarshal`) is a parameter. JSON encoding (`json.MarshalIndent`) is a parameter; its ignored error cannot occur for this one-string struct.
- Go's `regexp` engine is not modelled. The one expression is restated as two substring searches, and `Markdown.StripReturnsLeftmostGroup` and `Markdown.StripWithoutMatch` prove these agree with leftmost-first, lazy matching.
- Text.TrimSpace: Go strings are bytes, and the model works on Unicode scalar values. Invalid UTF-8 sequences, which Go would decode as U+FFFD, are not represented.
- Startup is not modelled: `.env` loading, environment variables, DSN formatting, `db.Ping`, `log.Fatal` exits (a failed table listing included), and `http.ListenAndServe` (main.go:36-65, 78-82).
- The schema string is a process-wide global written once at startup and only read afterwards. The model passes it as an argument, so concurrent serving adds nothing to verify and is not modelled.
- Handler.HandleSQLRequest: the outcome is what the handler writes, not what reaches the client. For a HEAD request the HTTP server drops the body, so the client gets the 405 without `Sadece POST isteği destekleniyor`. The headers are the ones the handler sets. Headers the HTTP server adds on the wire (`Date`, `Content-Length`) are not modelled, and neither is the exact status line.
