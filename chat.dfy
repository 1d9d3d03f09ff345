/** The parts of a chat completion that both versions of the node build the same
    way: the HTTP requests, the message list, the request body and the path
    `choices[0].message.content` read out of the reply. */
module Chat {
  import opened Api

  const ModelsUrl := "https://api.302.ai/v1/models?llm=1"
  const ChatUrl := "https://api.302.ai/v1/chat/completions"

  /** The two headers every request carries; `keyText` is the API key as the
      template literal renders it. */
  function Headers(keyText: string): map<string, string> {
    map["Authorization" := "Bearer " + keyText, "Content-Type" := "application/json"]
  }

  /** Every request authenticates with `Bearer <key>` and declares a JSON body. */
  lemma HeadersCarryKey(keyText: string)
    ensures Headers(keyText).Keys == {"Authorization", "Content-Type"}
    ensures Headers(keyText)["Authorization"] == "Bearer " + keyText
    ensures Headers(keyText)["Content-Type"] == "application/json"
  {
  }

  /** `GET /v1/models?llm=1`. */
  function ModelsRequest(keyText: string): HttpRequest {
    HttpRequest(Get, ModelsUrl, Headers(keyText), None)
  }

  /** The user content: the plain message, or the text part followed by the image
      part when an image URL is given. */
  function UserContent(message: string, imageUrl: string): Content {
    if imageUrl != "" then Multimodal([TextPart(message), ImageUrlPart(imageUrl)])
    else Plain(message)
  }

  /** The `messages` array: an optional system message, then the user message. */
  function ChatMessages(systemPrompt: string, message: string, imageUrl: string): (r: seq<ChatMessage>)
    ensures 1 <= |r| <= 2
    ensures |r| == 2 <==> systemPrompt != ""
    ensures r[0].role == System <==> systemPrompt != ""
    ensures systemPrompt != "" ==> r[0].content == Plain(systemPrompt)
    ensures r[|r| - 1] == ChatMessage(User, UserContent(message, imageUrl))
  {
    (if systemPrompt != "" then [ChatMessage(System, Plain(systemPrompt))] else [])
      + [ChatMessage(User, UserContent(message, imageUrl))]
  }

  /** Reads back the node inputs a message list was built from. */
  function MessageInputs(ms: seq<ChatMessage>): (string, string, string) {
    if ms == [] then ("", "", "")
    else
      var systemPrompt :=
        if |ms| == 2 && ms[0].role == System && ms[0].content.Plain? then ms[0].content.text else "";
      match ms[|ms| - 1].content
      case Plain(text) => (systemPrompt, text, "")
      case Multimodal(parts) =>
        if |parts| == 2 && parts[0].TextPart? && parts[1].ImageUrlPart?
        then (systemPrompt, parts[0].text, parts[1].url)
        else (systemPrompt, "", "")
  }

  /** The message list loses nothing: the system prompt, the message (even an
      empty one next to an image) and the image URL can all be read back. */
  lemma MessagesRoundTrip(systemPrompt: string, message: string, imageUrl: string)
    ensures MessageInputs(ChatMessages(systemPrompt, message, imageUrl)) == (systemPrompt, message, imageUrl)
  {
  }

  /** The spread `{model, messages, temperature, ...additionalFields}`. */
  function RequestBody(model: string, messages: seq<ChatMessage>, temperature: real,
                       additionalFields: map<string, Value>): map<string, Value>
  {
    map["model" := Str(model), "messages" := Messages(messages), "temperature" := Num(temperature)]
      + additionalFields
  }

  /** The body has the three base keys and every additional field; an additional
      field wins over a base key of the same name, and a base key that no
      additional field names keeps its own value. */
  lemma RequestBodyPrecedence(model: string, messages: seq<ChatMessage>, temperature: real,
                              additionalFields: map<string, Value>)
    ensures var body := RequestBody(model, messages, temperature, additionalFields);
      && body.Keys == {"model", "messages", "temperature"} + additionalFields.Keys
      && (forall k :: k in additionalFields ==> body[k] == additionalFields[k])
      && ("model" !in additionalFields ==> body["model"] == Str(model))
      && ("messages" !in additionalFields ==> body["messages"] == Messages(messages))
      && ("temperature" !in additionalFields ==> body["temperature"] == Num(temperature))
  {
  }

  /** `POST /v1/chat/completions` for one item. */
  function ChatRequest(keyText: string, p: ItemParams): HttpRequest {
    HttpRequest(Post, ChatUrl, Headers(keyText),
      Some(RequestBody(p.model, ChatMessages(p.systemPrompt, p.message, p.imageUrl),
                       p.temperature, p.additionalFields)))
  }

  /** `response?.choices?.[0]?.message?.content`. */
  function FirstContent(response: Option<ChatResponse>): (c: Option<string>)
    ensures c.Some? <==>
      && response.Some? && response.value.choices.Some? && |response.value.choices.value| > 0
      && response.value.choices.value[0].message.Some?
      && response.value.choices.value[0].message.value.content.Some?
    ensures c.Some? ==> c.value == response.value.choices.value[0].message.value.content.value
  {
    match response
    case None => None
    case Some(r) =>
      match r.choices
      case None => None
      case Some(choices) =>
        if choices == [] then None
        else
          match choices[0].message
          case None => None
          case Some(m) => m.content
  }

  /** The indices below `n` of the `chat` items, in increasing order. */
  function ChatIndices(items: seq<ItemParams>, n: nat): (r: seq<nat>)
    requires n <= |items|
    ensures |r| <= n
    ensures forall k :: 0 <= k < |r| ==> r[k] < n && items[r[k]].operation == "chat"
    ensures forall k, l :: 0 <= k < l < |r| ==> r[k] < r[l]
    ensures forall i :: 0 <= i < n && items[i].operation == "chat" ==> i in r
  {
    if n == 0 then []
    else if items[n - 1].operation == "chat" then ChatIndices(items, n - 1) + [n - 1]
    else ChatIndices(items, n - 1)
  }

  /** The chat requests sent for the first `n` items, in item order. */
  function SentRequests(keyText: string, items: seq<ItemParams>, n: nat): (r: seq<HttpRequest>)
    requires n <= |items|
    ensures |r| <= n
  {
    if n == 0 then []
    else
      var sent := SentRequests(keyText, items, n - 1);
      if items[n - 1].operation == "chat" then sent + [ChatRequest(keyText, items[n - 1])] else sent
  }

  /** The first `n` items send exactly one request per `chat` item, in item
      order, each built from its own item; other items send nothing. */
  lemma {:induction false} SentRequestsPerChat(keyText: string, items: seq<ItemParams>, n: nat)
    requires n <= |items|
    ensures var r := SentRequests(keyText, items, n);
      && |r| == |ChatIndices(items, n)|
      && forall k :: 0 <= k < |r| ==> r[k] == ChatRequest(keyText, items[ChatIndices(items, n)[k]])
  {
    if n > 0 {
      SentRequestsPerChat(keyText, items, n - 1);
    }
  }

  /** One more item adds its chat request, if it sends one, at the end. */
  lemma SentRequestsStep(keyText: string, items: seq<ItemParams>, i: nat)
    requires i < |items|
    ensures SentRequests(keyText, items, i + 1)
      == SentRequests(keyText, items, i) + if items[i].operation == "chat" then [ChatRequest(keyText, items[i])] else []
  {
  }
}
