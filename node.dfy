/** The node class `ThreeZeroTwoAi` (nodes/ThreeZeroTwoAi): the model dropdown
    loader `getModels` and the per-item chat loop `execute`. */
module ThreeZeroTwoAi {
  import opened Api
  import opened Text
  import opened Ordering
  import opened Chat

  const ApiKeyRequired := "API key is required to load models"
  const InvalidResponseFormat := "Invalid response format from 302.AI API"
  const NoModelsFound := "No models found in 302.AI API response"
  const LoadFailedPrefix := "Failed to load models: "
  const NoValidApiKey := "No valid API key provided"
  const UnknownError := "Unknown error"

  /** `error instanceof Error ? error.message : 'Unknown error'`. */
  function MessageOf(t: Thrown): string {
    if t.Error? then t.message else UnknownError
  }

  /** One dropdown entry; a missing or empty owner leaves the description undefined. */
  function ModelOption(m: ModelEntry): PropertyOption {
    PropertyOption(m.id, m.id, if Truthy(m.ownedBy) then Some("Owned by: " + m.ownedBy.value) else None)
  }

  /** `response.data.map(...)`, before sorting. */
  function ModelOptionsOf(models: seq<ModelEntry>): (r: seq<PropertyOption>)
    ensures |r| == |models|
    ensures forall i :: 0 <= i < |models| ==> r[i] == ModelOption(models[i])
  {
    seq(|models|, i requires 0 <= i < |models| => ModelOption(models[i]))
  }

  /** The body of the `try` in `getModels`: shape check, map, sort, empty check. */
  function ListModels(body: ModelsBody): (r: Result<seq<PropertyOption>, string>)
    ensures r.Success? <==> body.DataArray? && body.models != []
    ensures !body.DataArray? ==> r == Failure(InvalidResponseFormat)
    ensures body == DataArray([]) ==> r == Failure(NoModelsFound)
    ensures r.Success? ==>
      && SortedByName(r.value)
      && multiset(r.value) == multiset(ModelOptionsOf(body.models))
      && forall k :: Named(r.value, k) == Named(ModelOptionsOf(body.models), k)
  {
    if !body.DataArray? then Failure(InvalidResponseFormat)
    else
      var mapped := ModelOptionsOf(body.models);
      var models := SortByName(mapped);
      assert |models| == |mapped| by { assert |multiset(models)| == |multiset(mapped)|; }
      if |models| == 0 then Failure(NoModelsFound)
      else
        assert forall k :: Named(models, k) == Named(mapped, k) by {
          forall k { SortByNameStable(mapped, k); }
        }
        Success(models)
  }

  /** `methods.loadOptions.getModels`; `fetch` stands for `this.helpers.request`.
      A missing or empty key fails before any request, whatever the transport
      would do. Every other failure is re-thrown with the `Failed to load models:`
      prefix: a transport error with its message, a malformed reply and an empty
      model list each with their own. A success is the model list sorted by name,
      a permutation of the mapped `data` in which equal names keep their order. */
  function GetModels(apiKey: Option<string>, fetch: HttpRequest -> Result<ModelsBody, Thrown>)
    : (r: Result<seq<PropertyOption>, string>)
    ensures !Truthy(apiKey) ==> r == Failure(ApiKeyRequired)
    ensures r.Failure? ==> r.error == ApiKeyRequired || LoadFailedPrefix <= r.error
    ensures Truthy(apiKey) && fetch(ModelsRequest(apiKey.value)).Failure? ==>
      r == Failure(LoadFailedPrefix + MessageOf(fetch(ModelsRequest(apiKey.value)).error))
    ensures Truthy(apiKey) && fetch(ModelsRequest(apiKey.value)).Success? ==>
      var body := fetch(ModelsRequest(apiKey.value)).value;
      && (r.Success? <==> body.DataArray? && body.models != [])
      && (!body.DataArray? ==> r == Failure(LoadFailedPrefix + InvalidResponseFormat))
      && (body == DataArray([]) ==> r == Failure(LoadFailedPrefix + NoModelsFound))
    ensures r.Success? ==>
      && Truthy(apiKey) && fetch(ModelsRequest(apiKey.value)).Success?
      && var body := fetch(ModelsRequest(apiKey.value)).value;
      && body.DataArray? && |r.value| == |body.models|
      && SortedByName(r.value)
      && multiset(r.value) == multiset(ModelOptionsOf(body.models))
      && forall k :: Named(r.value, k) == Named(ModelOptionsOf(body.models), k)
  {
    if !Truthy(apiKey) then Failure(ApiKeyRequired)
    else
      match fetch(ModelsRequest(apiKey.value))
      case Failure(t) => Failure(LoadFailedPrefix + MessageOf(t))
      case Success(body) =>
        match ListModels(body)
        case Success(options) =>
          assert |options| == |ModelOptionsOf(body.models)| by {
            assert |multiset(options)| == |multiset(ModelOptionsOf(body.models))|;
          }
          Success(options)
        case Failure(m) => Failure(LoadFailedPrefix + m)
  }

  /** The options of a successful model list are exactly the options built from
      the models of the reply. */
  lemma GetModelsOptions(apiKey: Option<string>, fetch: HttpRequest -> Result<ModelsBody, Thrown>)
    ensures var r := GetModels(apiKey, fetch);
      r.Success? ==>
        var body := fetch(ModelsRequest(apiKey.value)).value;
        forall o :: o in r.value <==> exists i :: 0 <= i < |body.models| && o == ModelOption(body.models[i])
  {
    var r := GetModels(apiKey, fetch);
    if r.Success? {
      var body := fetch(ModelsRequest(apiKey.value)).value;
      var mapped := ModelOptionsOf(body.models);
      forall o ensures o in r.value <==> exists i :: 0 <= i < |body.models| && o == ModelOption(body.models[i]) {
        assert o in r.value <==> o in multiset(mapped);
        if o in mapped {
          var i :| 0 <= i < |mapped| && mapped[i] == o;
          assert o == ModelOption(body.models[i]);
        }
      }
    }
  }

  /** `response?.choices?.[0]?.message?.content?.trim()` and its truthiness check. */
  function ReadContent(response: Option<ChatResponse>): Result<string, string> {
    match FirstContent(response)
    case None => Failure(InvalidResponseFormat)
    case Some(content) =>
      var messageContent := Trim(content);
      if messageContent == "" then Failure(InvalidResponseFormat) else Success(messageContent)
  }

  /** The content is accepted exactly when it is present and not whitespace only
      (whitespace-only content is rejected like missing content); the text kept is
      the trimmed content, which is non-empty and has no whitespace at either end. */
  lemma ReadContentAccepts(response: Option<ChatResponse>)
    ensures var r := ReadContent(response);
      && (r.Success? <==> FirstContent(response).Some? && !AllWhitespace(FirstContent(response).value))
      && (r.Success? ==> r.value == Trim(FirstContent(response).value) && r.value != "" && Trimmed(r.value))
      && (r.Failure? ==> r.error == InvalidResponseFormat)
  {
    if FirstContent(response).Some? {
      TrimEmptyIffBlank(FirstContent(response).value);
    }
  }

  /** What the `try` block does with one item, given the reply to its request:
      the response text or what it throws. */
  function ItemOutcome(p: ItemParams, reply: ChatReply): Result<string, Thrown> {
    if p.operation != "chat" then Failure(Error("Unsupported operation: " + p.operation))
    else
      match reply
      case Failure(t) => Failure(t)
      case Success(response) =>
        match ReadContent(response)
        case Success(text) => Success(text)
        case Failure(m) => Failure(Error(m))
  }

  /** An unsupported operation throws without a request; a failed request throws
      its own error; a reply without acceptable content throws the invalid-format
      error; an item succeeds exactly when it is a `chat` item whose reply carries
      acceptable content, and then yields that content trimmed. */
  lemma ItemOutcomeCases(p: ItemParams, reply: ChatReply)
    ensures var r := ItemOutcome(p, reply);
      && (p.operation != "chat" ==> r == Failure(Error("Unsupported operation: " + p.operation)))
      && (p.operation == "chat" && reply.Failure? ==> r == Failure(reply.error))
      && (p.operation == "chat" && reply.Success? && r.Failure? ==> r == Failure(Error(InvalidResponseFormat)))
      && (r.Success? <==> p.operation == "chat" && reply.Success? && FirstContent(reply.value).Some?
                          && !AllWhitespace(FirstContent(reply.value).value))
      && (r.Success? ==> r.value == Trim(FirstContent(reply.value).value) && r.value != "" && Trimmed(r.value))
  {
    if reply.Success? {
      ReadContentAccepts(reply.value);
    }
  }

  /** The loop body of `execute` as the node runs it: the operation check, the
      message list pushed step by step, the user content replaced in place when an
      image is given, the spread body, the request sent (`reply` is its answer)
      and the content check. */
  method RunItem(key: string, p: ItemParams, reply: ChatReply)
    returns (outcome: Result<string, Thrown>, sent: Option<HttpRequest>)
    ensures sent == (if p.operation == "chat" then Some(ChatRequest(key, p)) else None)
    ensures outcome == ItemOutcome(p, reply)
  {
    if p.operation != "chat" {
      return Failure(Error("Unsupported operation: " + p.operation)), None;
    }
    var messages: seq<ChatMessage> := [];
    if p.systemPrompt != "" {
      messages := messages + [ChatMessage(System, Plain(p.systemPrompt))];
    }
    var userMessage := ChatMessage(User, Plain(p.message));
    if p.imageUrl != "" {
      userMessage := userMessage.(content := Multimodal([TextPart(p.message), ImageUrlPart(p.imageUrl)]));
    }
    messages := messages + [userMessage];
    assert messages == ChatMessages(p.systemPrompt, p.message, p.imageUrl);
    var requestBody := map["model" := Str(p.model), "messages" := Messages(messages),
                           "temperature" := Num(p.temperature)] + p.additionalFields;
    assert requestBody == RequestBody(p.model, messages, p.temperature, p.additionalFields);
    sent := Some(HttpRequest(Post, ChatUrl, Headers(key), Some(requestBody)));
    if reply.Failure? {
      return Failure(reply.error), sent;
    }
    var content := FirstContent(reply.value);
    var messageContent := if content.Some? then Some(Trim(content.value)) else None;
    if messageContent == None || messageContent == Some("") {
      return Failure(Error(InvalidResponseFormat)), sent;
    }
    outcome := Success(messageContent.value);
  }

  /** The row `execute` pushes for an item: its response, or (when the run goes on
      after failures) its error message; either way tagged with its index. */
  function RowFor(outcome: Result<string, Thrown>, index: nat): Row {
    match outcome
    case Success(text) => Row(ResponseJson(text), index)
    case Failure(t) => Row(ErrorJson(Some(MessageOf(t))), index)
  }

  /** One pass of the loop: push the item's row, or stop with its error. */
  function Step(progress: Progress, outcome: Result<string, Thrown>, index: nat, continueOnFail: bool): Progress {
    match progress
    case Aborted(t, at) => Aborted(t, at)
    case Running(rows) =>
      if outcome.Success? || continueOnFail then Running(rows + [RowFor(outcome, index)])
      else Aborted(outcome.error, index)
  }

  /** The state of the loop after the first `n` items, given what each item's
      `try` block produces. */
  function Run(outcomes: seq<Result<string, Thrown>>, n: nat, continueOnFail: bool): Progress
    requires n <= |outcomes|
  {
    if n == 0 then Running([])
    else Step(Run(outcomes, n - 1, continueOnFail), outcomes[n - 1], n - 1, continueOnFail)
  }

  /** What each item's `try` block produces. */
  function Outcomes(items: seq<ItemParams>, replies: seq<ChatReply>): (r: seq<Result<string, Thrown>>)
    requires |replies| == |items|
    ensures |r| == |items|
  {
    if items == [] then []
    else [ItemOutcome(items[0], replies[0])] + Outcomes(items[1..], replies[1..])
  }

  /** Item `k`'s outcome is what its parameters and its reply make it. */
  lemma {:induction false} OutcomeAt(items: seq<ItemParams>, replies: seq<ChatReply>, k: nat)
    requires |replies| == |items| && k < |items|
    ensures Outcomes(items, replies)[k] == ItemOutcome(items[k], replies[k])
  {
    if k > 0 {
      OutcomeAt(items[1..], replies[1..], k - 1);
    }
  }

  lemma OutcomesMatch(items: seq<ItemParams>, replies: seq<ChatReply>)
    requires |replies| == |items|
    ensures forall k :: 0 <= k < |items| ==> Outcomes(items, replies)[k] == ItemOutcome(items[k], replies[k])
  {
    forall k | 0 <= k < |items| ensures Outcomes(items, replies)[k] == ItemOutcome(items[k], replies[k]) {
      OutcomeAt(items, replies, k);
    }
  }

  /** What `execute` returns or throws, and the requests it sends on the way. */
  datatype Execution = Execution(result: Result<seq<Row>, Thrown>, sent: seq<HttpRequest>)

  /** `execute`: the missing-key error before any request, or one pass over the
      items that ends with the rows or with the error of the item that stopped it. */
  function ExecuteResult(apiKey: Option<string>, items: seq<ItemParams>, continueOnFail: bool,
                         replies: seq<ChatReply>): Execution
    requires |replies| == |items|
  {
    if !Truthy(apiKey) then Execution(Failure(Error(NoValidApiKey)), [])
    else ItemsResult(apiKey.value, items, continueOnFail, replies)
  }

  /** The pass over the items with the key `key`. */
  function ItemsResult(key: string, items: seq<ItemParams>, continueOnFail: bool,
                       replies: seq<ChatReply>): Execution
    requires |replies| == |items|
  {
    match Run(Outcomes(items, replies), |items|, continueOnFail)
    case Running(rows) => Execution(Success(rows), SentRequests(key, items, |items|))
    case Aborted(t, at) =>
      Execution(Failure(t), if at < |items| then SentRequests(key, items, at + 1) else [])
  }

  lemma {:induction false} AbortedStays(outcomes: seq<Result<string, Thrown>>, m: nat, n: nat, continueOnFail: bool)
    requires m <= n <= |outcomes|
    requires Run(outcomes, m, continueOnFail).Aborted?
    ensures Run(outcomes, n, continueOnFail) == Run(outcomes, m, continueOnFail)
    decreases n - m
  {
    if m < n {
      AbortedStays(outcomes, m, n - 1, continueOnFail);
    }
  }

  /** `execute` as the node runs it: the key check once, before any item, then
      the loop over the items. */
  method Execute(apiKey: Option<string>, items: seq<ItemParams>, continueOnFail: bool, replies: seq<ChatReply>)
    returns (result: Result<seq<Row>, Thrown>, sent: seq<HttpRequest>)
    requires |replies| == |items|
    ensures Execution(result, sent) == ExecuteResult(apiKey, items, continueOnFail, replies)
    ensures !Truthy(apiKey) ==> result == Failure(Error(NoValidApiKey)) && sent == []
  {
    if !Truthy(apiKey) {
      return Failure(Error(NoValidApiKey)), [];
    }
    result, sent := ProcessItems(apiKey.value, items, continueOnFail, replies);
  }

  /** The loop of `execute`: one pass over the items; `replies[i]` answers the
      request of item `i`. */
  method ProcessItems(key: string, items: seq<ItemParams>, continueOnFail: bool, replies: seq<ChatReply>)
    returns (result: Result<seq<Row>, Thrown>, sent: seq<HttpRequest>)
    requires |replies| == |items|
    ensures Execution(result, sent) == ItemsResult(key, items, continueOnFail, replies)
  {
    ghost var outcomes := Outcomes(items, replies);
    var returnData: seq<Row> := [];
    sent := [];
    var itemIndex := 0;
    while itemIndex < |items|
      invariant 0 <= itemIndex <= |items|
      invariant Run(outcomes, itemIndex, continueOnFail) == Running(returnData)
      invariant sent == SentRequests(key, items, itemIndex)
    {
      var outcome, request := RunItem(key, items[itemIndex], replies[itemIndex]);
      OutcomeAt(items, replies, itemIndex);
      assert Run(outcomes, itemIndex + 1, continueOnFail) == Step(Running(returnData), outcome, itemIndex, continueOnFail);
      SentRequestsStep(key, items, itemIndex);
      if request.Some? {
        sent := sent + [request.value];
      }
      if outcome.Success? {
        returnData := returnData + [Row(ResponseJson(outcome.value), itemIndex)];
      } else if continueOnFail {
        returnData := returnData + [Row(ErrorJson(Some(MessageOf(outcome.error))), itemIndex)];
      } else {
        AbortedStays(outcomes, itemIndex + 1, |items|, continueOnFail);
        assert Run(outcomes, |items|, continueOnFail) == Aborted(outcome.error, itemIndex);
        return Failure(outcome.error), sent;
      }
      assert Run(outcomes, itemIndex + 1, continueOnFail) == Running(returnData);
      itemIndex := itemIndex + 1;
    }
    result := Success(returnData);
  }

  /** With `continueOnFail`, every item yields exactly one row, in order, tagged
      with its index: its response when it succeeded, otherwise its error. */
  lemma {:induction false} ContinueOnFailRows(outcomes: seq<Result<string, Thrown>>, n: nat)
    requires n <= |outcomes|
    ensures Run(outcomes, n, true).Running?
    ensures var rows := Run(outcomes, n, true).rows;
      && |rows| == n
      && forall i :: 0 <= i < n ==> rows[i] == RowFor(outcomes[i], i)
  {
    if n > 0 {
      ContinueOnFailRows(outcomes, n - 1);
    }
  }

  /** Item `j` is the first item whose processing throws. */
  ghost predicate FirstFailure(outcomes: seq<Result<string, Thrown>>, j: nat) {
    && j < |outcomes|
    && outcomes[j].Failure?
    && forall i :: 0 <= i < j ==> outcomes[i].Success?
  }

  /** Without `continueOnFail`, the run gets through the first `n` items exactly
      when every one of them succeeds, and then has pushed their responses. */
  lemma {:induction false} CompletesIffAllSucceed(outcomes: seq<Result<string, Thrown>>, n: nat)
    requires n <= |outcomes|
    ensures Run(outcomes, n, false).Running? <==> forall i :: 0 <= i < n ==> outcomes[i].Success?
    ensures Run(outcomes, n, false).Running? ==>
      var rows := Run(outcomes, n, false).rows;
      |rows| == n && forall i :: 0 <= i < n ==> rows[i] == Row(ResponseJson(outcomes[i].value), i)
  {
    if n > 0 {
      CompletesIffAllSucceed(outcomes, n - 1);
    }
  }

  /** Without `continueOnFail`, the first failing item ends the run with its own
      error, whatever the later items would have done. */
  lemma {:induction false} FirstFailureAborts(outcomes: seq<Result<string, Thrown>>, n: nat, j: nat)
    requires j < n <= |outcomes|
    requires FirstFailure(outcomes, j)
    ensures Run(outcomes, n, false) == Aborted(outcomes[j].error, j)
  {
    if j == n - 1 {
      CompletesIffAllSucceed(outcomes, j);
    } else {
      FirstFailureAborts(outcomes, n - 1, j);
      AbortedStays(outcomes, n - 1, n, false);
    }
  }

  /** `execute` with `continueOnFail`: one row per input item, in order, with
      `pairedItem.item` equal to the item's index; a response row exactly for the
      items that succeeded, an error row (an unsupported operation among them) for
      the others; a request for every `chat` item. */
  lemma ExecuteContinueOnFail(apiKey: Option<string>, items: seq<ItemParams>, replies: seq<ChatReply>)
    requires Truthy(apiKey) && |replies| == |items|
    ensures var e := ExecuteResult(apiKey, items, true, replies);
      && e.result.Success?
      && |e.result.value| == |items|
      && e.sent == SentRequests(apiKey.value, items, |items|)
      && forall i :: 0 <= i < |items| ==>
        && e.result.value[i].pairedItem == i
        && e.result.value[i] == RowFor(ItemOutcome(items[i], replies[i]), i)
  {
    OutcomesMatch(items, replies);
    ContinueOnFailRows(Outcomes(items, replies), |items|);
  }

  /** `execute` without `continueOnFail` returns rows exactly when every item
      succeeds, and then one response row per item, in order, tagged with its
      index, after every item has sent its request. */
  lemma ExecuteSucceedsIffAllSucceed(apiKey: Option<string>, items: seq<ItemParams>, replies: seq<ChatReply>)
    requires Truthy(apiKey) && |replies| == |items|
    ensures ExecuteResult(apiKey, items, false, replies).result.Success? <==>
      forall i :: 0 <= i < |items| ==> ItemOutcome(items[i], replies[i]).Success?
    ensures var e := ExecuteResult(apiKey, items, false, replies);
      e.result.Success? ==>
        && |e.result.value| == |items|
        && e.sent == SentRequests(apiKey.value, items, |items|)
        && forall i :: 0 <= i < |items| ==>
          e.result.value[i] == Row(ResponseJson(ItemOutcome(items[i], replies[i]).value), i)
  {
    OutcomesMatch(items, replies);
    CompletesIffAllSucceed(Outcomes(items, replies), |items|);
  }

  /** Item `j` is the first item whose processing throws. */
  ghost predicate FailsFirstAt(items: seq<ItemParams>, replies: seq<ChatReply>, j: nat)
    requires |replies| == |items|
  {
    && j < |items|
    && ItemOutcome(items[j], replies[j]).Failure?
    && forall i :: 0 <= i < j ==> ItemOutcome(items[i], replies[i]).Success?
  }

  /** `execute` without `continueOnFail` throws the error of the first failing
      item, and no later item sends a request. */
  lemma ExecuteAbortsOnFirstFailure(apiKey: Option<string>, items: seq<ItemParams>, replies: seq<ChatReply>, j: nat)
    requires Truthy(apiKey) && |replies| == |items|
    requires FailsFirstAt(items, replies, j)
    ensures ExecuteResult(apiKey, items, false, replies)
      == Execution(Failure(ItemOutcome(items[j], replies[j]).error), SentRequests(apiKey.value, items, j + 1))
  {
    var outcomes := Outcomes(items, replies);
    OutcomesMatch(items, replies);
    assert FirstFailure(outcomes, j);
    FirstFailureAborts(outcomes, |items|, j);
  }
}
