/** Values exchanged between the 302.AI node, the n8n host and the 302.AI HTTP API.
    Both versions of the node share these shapes. */
module Api {

  datatype Option<+T> = None | Some(value: T)

  datatype Result<+R, +E> = Success(value: R) | Failure(error: E)

  /** What a `throw` can carry: an `Error` object (NodeOperationError or a transport
      error) with its message, some other object that is not an `Error` but has a
      string `message` property, or some other thrown value that has no message. */
  datatype Thrown = Error(message: string) | MessageCarrier(message: string) | NonError

  /** A JSON value placed in a request body. Numbers (temperature and the optional
      tuning fields) are passed through untouched and never computed on. */
  datatype Value =
    | Str(s: string)
    | Num(x: real)
    | Messages(messages: seq<ChatMessage>)

  datatype Role = System | User

  datatype Part = TextPart(text: string) | ImageUrlPart(url: string)

  /** The `MultimodalMessageContent` type: a plain string or an ordered list of parts. */
  datatype Content = Plain(text: string) | Multimodal(parts: seq<Part>)

  datatype ChatMessage = ChatMessage(role: Role, content: Content)

  datatype HttpMethod = Get | Post

  /** The request options handed to `this.helpers.request` (always `json: true`). */
  datatype HttpRequest = HttpRequest(
    verb: HttpMethod,
    url: string,
    headers: map<string, string>,
    body: Option<map<string, Value>>)

  /** `ChatCompletionResponse`: every step of `choices[0].message.content` may be absent. */
  datatype ChatResponse = ChatResponse(choices: Option<seq<Choice>>)
  datatype Choice = Choice(message: Option<ReplyMessage>)
  datatype ReplyMessage = ReplyMessage(content: Option<string>)

  /** One element of the model list: `ThreeZeroTwoModel`. */
  datatype ModelEntry = ModelEntry(id: string, ownedBy: Option<string>)

  /** The `data` field of the model-list reply. `NoData` stands for a null reply
      and for a reply without `data`; `NotAnArray` for any other non-array value. */
  datatype ModelsBody = NoData | NotAnArray | DataArray(models: seq<ModelEntry>)

  /** `INodePropertyOptions`: a dropdown entry; `None` is an undefined description. */
  datatype PropertyOption = PropertyOption(name: string, value: string, description: Option<string>)

  /** The `json` of one output row: `{response}` or `{error}`; an `error` of `None`
      is a row whose `error` field is undefined. */
  datatype RowJson = ResponseJson(response: string) | ErrorJson(error: Option<string>)

  /** `INodeExecutionData` with `pairedItem.item`. */
  datatype Row = Row(json: RowJson, pairedItem: nat)

  /** How far `execute` has got: the rows pushed so far, or the error it threw and
      the index of the item that threw it. */
  datatype Progress = Running(rows: seq<Row>) | Aborted(error: Thrown, index: nat)

  /** The node parameters the host resolves for one input item. */
  datatype ItemParams = ItemParams(
    operation: string,
    model: string,
    systemPrompt: string,
    message: string,
    temperature: real,
    additionalFields: map<string, Value>,
    imageUrl: string)

  /** What the HTTP call for one item gives back: the parsed reply body, which may
      be null, or the error the request threw. */
  type ChatReply = Result<Option<ChatResponse>, Thrown>

  /** JavaScript truthiness of an optional string such as `credentials?.apiKey`. */
  predicate Truthy(s: Option<string>) {
    s.Some? && s.value != ""
  }
}
