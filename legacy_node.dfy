/** The older node class `ThreeZeroTwoAI` (nodes/ThreeZeroTwoAI). It builds the
    same requests as `ThreeZeroTwoAi`, but its `getModels` has no key check and
    an empty-string default description, its `execute` checks the completion
    before trimming it and skips items whose operation is not `chat`. */
module ThreeZeroTwoAILegacy {
  import opened Api
  import opened Text
  import opened Ordering
  import opened Chat

  const InvalidResponseFormat := "Invalid response format from 302.ai API"
  const NoModelsFound := "No models found in 302.ai API response"
  const LoadFailedPrefix := "Failed to load models: "
  const NoValidApiKey := "No valid API key provided"

  /** `error.message`: read from any thrown object that has one, and undefined
      for a thrown value without it. */
  function MessageOf(t: Thrown): Option<string> {
    if t.NonError? then None else Some(t.message)
  }

  /** How a template literal renders an optional string. */
  function Render(s: Option<string>): string {
    match s
    case Some(text) => text
    case None => "undefined"
  }

  /** One dropdown entry; a missing or empty owner gives the empty description. */
  function ModelOption(m: ModelEntry): PropertyOption {
    PropertyOption(m.id, m.id, Some(if Truthy(m.ownedBy) then "Owned by: " + m.ownedBy.value else ""))
  }

  /** `response.data.map(...)`, before sorting. */
  function ModelOptionsOf(models: seq<ModelEntry>): (r: seq<PropertyOption>)
    ensures |r| == |models|
    ensures forall i :: 0 <= i < |models| ==> r[i] == ModelOption(models[i])
  {
    seq(|models|, i requires 0 <= i < |models| => ModelOption(models[i]))
  }

  /** The body of the `try` in `getModels`: a missing or non-array `data` is
      malformed, an empty one has no models, otherwise the options sorted by name. */
  function ListModels(body: ModelsBody): (r: Result<seq<PropertyOption>, string>)
    ensures r.Success? <==> body.DataArray? && body.models != []
    ensures !body.DataArray? ==> r == Failure(InvalidResponseFormat)
    ensures body == DataArray([]) ==> r == Failure(NoModelsFound)
    ensures r.Success? ==>
      && SortedByName(r.value)
      && multiset(r.value) == multiset(ModelOptionsOf(body.models))
      && forall k :: Named(r.value, k) == Named(ModelOptionsOf(body.models), k)
  {
    if body.NoData? || !body.DataArray? then Failure(InvalidResponseFormat)
    else
      var mapped := ModelOptionsOf(body.models);
      var models := SortByName(mapped);
      assert |models| == |mapped| by { assert |multiset(models)| == |multiset(mapped)|; }
      if |models| == 0 then Failure(NoModelsFound)
      else
        assert forall k :: Named(models, k) == Named(mapped, k) by {
          forall k { SortByNameStable(mapped, k); }
        }
        Success(models)
  }

  /** `methods.loadOptions.getModels`: the request goes out whatever the key is
      (an absent key is sent as `Bearer undefined`). Every failure is re-thrown
      with the `Failed to load models:` prefix: a transport error with its
      message as the template literal renders it, a malformed reply and an empty
      model list each with their own. A success is the model list sorted by name,
      a permutation of the mapped `data` in which equal names keep their order. */
  function GetModels(apiKey: Option<string>, fetch: HttpRequest -> Result<ModelsBody, Thrown>)
    : (r: Result<seq<PropertyOption>, string>)
    ensures r.Failure? ==> LoadFailedPrefix <= r.error
    ensures fetch(ModelsRequest(Render(apiKey))).Failure? ==>
      r == Failure(LoadFailedPrefix + Render(MessageOf(fetch(ModelsRequest(Render(apiKey))).error)))
    ensures fetch(ModelsRequest(Render(apiKey))).Success? ==>
      var body := fetch(ModelsRequest(Render(apiKey))).value;
      && (r.Success? <==> body.DataArray? && body.models != [])
      && (!body.DataArray? ==> r == Failure(LoadFailedPrefix + InvalidResponseFormat))
      && (body == DataArray([]) ==> r == Failure(LoadFailedPrefix + NoModelsFound))
    ensures r.Success? ==>
      && fetch(ModelsRequest(Render(apiKey))).Success?
      && var body := fetch(ModelsRequest(Render(apiKey))).value;
      && body.DataArray? && |r.value| == |body.models|
      && SortedByName(r.value)
      && multiset(r.value) == multiset(ModelOptionsOf(body.models))
      && forall k :: Named(r.value, k) == Named(ModelOptionsOf(body.models), k)
  {
    match fetch(ModelsRequest(Render(apiKey)))
    case Failure(t) => Failure(LoadFailedPrefix + Render(MessageOf(t)))
    case Success(body) =>
      match ListModels(body)
      case Success(options) =>
        assert |options| == |ModelOptionsOf(body.models)| by {
          assert |multiset(options)| == |multiset(ModelOptionsOf(body.models))|;
        }
        Success(options)
      case Failure(m) => Failure(LoadFailedPrefix + m)
  }

  /** The options of a successful model list are exactly the options built from
      the models of the reply, each with its `''` default description. */
  lemma GetModelsOptions(apiKey: Option<string>, fetch: HttpRequest -> Result<ModelsBody, Thrown>)
    ensures var r := GetModels(apiKey, fetch);
      r.Success? ==>
        var body := fetch(ModelsRequest(Render(apiKey))).value;
        forall o :: o in r.value <==> exists i :: 0 <= i < |body.models| && o == ModelOption(body.models[i])
  {
    var r := GetModels(apiKey, fetch);
    if r.Success? {
      var body := fetch(ModelsRequest(Render(apiKey))).value;
      var mapped := ModelOptionsOf(body.models);
      forall o ensures o in r.value <==> exists i :: 0 <= i < |body.models| && o == ModelOption(body.models[i]) {
        assert o in r.value <==> o in multiset(mapped);
        if o in mapped {
          var i :| 0 <= i < |mapped| && mapped[i] == o;
          assert o == ModelOption(body.models[i]);
        }
      }
    }
  }

  /** `!response?.choices?.[0]?.message?.content` is checked first and the content
      trimmed afterwards. */
  function ReadContent(response: Option<ChatResponse>): Result<string, string> {
    match FirstContent(response)
    case None => Failure(InvalidResponseFormat)
    case Some(content) =>
      if content == "" then Failure(InvalidResponseFormat)
      else Success(Trim(content))
  }

  /** The content is accepted exactly when it is present and not empty, before
      any trimming; the text kept is the trimmed content, so whitespace-only
      content is accepted and yields "". */
  lemma ReadContentAccepts(response: Option<ChatResponse>)
    ensures var r := ReadContent(response);
      && (r.Success? <==> FirstContent(response).Some? && FirstContent(response).value != "")
      && (r.Success? ==> r.value == Trim(FirstContent(response).value) && Trimmed(r.value))
      && (r.Success? ==> (r.value == "" <==> AllWhitespace(FirstContent(response).value)))
      && (r.Failure? ==> r.error == InvalidResponseFormat)
  {
    if FirstContent(response).Some? {
      TrimEmptyIffBlank(FirstContent(response).value);
    }
  }

  /** What the `try` block does with a `chat` item, given the reply to its request. */
  function ChatOutcome(reply: ChatReply): Result<string, Thrown> {
    match reply
    case Failure(t) => Failure(t)
    case Success(response) =>
      match ReadContent(response)
      case Success(text) => Success(text)
      case Failure(m) => Failure(Error(m))
  }

  /** A failed request re-throws its own error; otherwise the item succeeds exactly
      when the reply carries non-empty content, and yields it trimmed. */
  lemma ChatOutcomeCases(reply: ChatReply)
    ensures var r := ChatOutcome(reply);
      && (reply.Failure? ==> r == Failure(reply.error))
      && (r.Success? <==> reply.Success? && FirstContent(reply.value).Some? && FirstContent(reply.value).value != "")
      && (r.Success? ==> r.value == Trim(FirstContent(reply.value).value) && Trimmed(r.value))
      && (reply.Success? && r.Failure? ==> r == Failure(Error(InvalidResponseFormat)))
  {
    if reply.Success? {
      ReadContentAccepts(reply.value);
    }
  }

  /** What an item's `try` block produces: nothing for an operation other than
      `chat`, otherwise the outcome of its chat request. */
  function ItemOutcome(p: ItemParams, reply: ChatReply): Option<Result<string, Thrown>> {
    if p.operation == "chat" then Some(ChatOutcome(reply)) else None
  }

  /** The loop body of `execute` as the node runs it: nothing unless the operation
      is `chat`; then the message list pushed step by step, the user message given
      its content in one of two branches, the spread body, the request sent
      (`reply` is its answer), the check on the untrimmed content and the trim. */
  method RunItem(key: string, p: ItemParams, reply: ChatReply)
    returns (outcome: Option<Result<string, Thrown>>, sent: Option<HttpRequest>)
    ensures sent == (if p.operation == "chat" then Some(ChatRequest(key, p)) else None)
    ensures outcome == ItemOutcome(p, reply)
  {
    if p.operation != "chat" {
      return None, None;
    }
    var messages: seq<ChatMessage> := [];
    if p.systemPrompt != "" {
      messages := messages + [ChatMessage(System, Plain(p.systemPrompt))];
    }
    var content: Content;
    if p.imageUrl != "" {
      content := Multimodal([TextPart(p.message), ImageUrlPart(p.imageUrl)]);
    } else {
      content := Plain(p.message);
    }
    var userMessage := ChatMessage(User, content);
    messages := messages + [userMessage];
    assert messages == ChatMessages(p.systemPrompt, p.message, p.imageUrl);
    var requestBody := map["model" := Str(p.model), "messages" := Messages(messages),
                           "temperature" := Num(p.temperature)] + p.additionalFields;
    assert requestBody == RequestBody(p.model, messages, p.temperature, p.additionalFields);
    sent := Some(HttpRequest(Post, ChatUrl, Headers(key), Some(requestBody)));
    if reply.Failure? {
      return Some(Failure(reply.error)), sent;
    }
    var first := FirstContent(reply.value);
    if first == None || first == Some("") {
      return Some(Failure(Error(InvalidResponseFormat))), sent;
    }
    outcome := Some(Success(Trim(first.value)));
  }

  /** The row `execute` pushes for a `chat` item: its response, or (when the run
      goes on after failures) `error.message`; either way tagged with its index. */
  function RowFor(outcome: Result<string, Thrown>, index: nat): Row {
    match outcome
    case Success(text) => Row(ResponseJson(text), index)
    case Failure(t) => Row(ErrorJson(MessageOf(t)), index)
  }

  /** One pass of the loop: nothing for a skipped item, otherwise push its row or
      stop with its error. */
  function Step(progress: Progress, outcome: Option<Result<string, Thrown>>, index: nat, continueOnFail: bool)
    : Progress
  {
    match progress
    case Aborted(t, at) => Aborted(t, at)
    case Running(rows) =>
      match outcome
      case None => Running(rows)
      case Some(o) =>
        if o.Success? || continueOnFail then Running(rows + [RowFor(o, index)])
        else Aborted(o.error, index)
  }

  /** The state of the loop after the first `n` items. */
  function Run(outcomes: seq<Option<Result<string, Thrown>>>, n: nat, continueOnFail: bool): Progress
    requires n <= |outcomes|
  {
    if n == 0 then Running([])
    else Step(Run(outcomes, n - 1, continueOnFail), outcomes[n - 1], n - 1, continueOnFail)
  }

  function Outcomes(items: seq<ItemParams>, replies: seq<ChatReply>): (r: seq<Option<Result<string, Thrown>>>)
    requires |replies| == |items|
    ensures |r| == |items|
  {
    if items == [] then []
    else [ItemOutcome(items[0], replies[0])] + Outcomes(items[1..], replies[1..])
  }

  /** Item `k`'s outcome is what its parameters and its reply make it. */
  lemma {:induction false} OutcomeAt(items: seq<ItemParams>, replies: seq<ChatReply>, k: nat)
    requires |replies| == |items| && k < |items|
    ensures Outcomes(items, replies)[k] == ItemOutcome(items[k], replies[k])
  {
    if k > 0 {
      OutcomeAt(items[1..], replies[1..], k - 1);
    }
  }

  lemma OutcomesMatch(items: seq<ItemParams>, replies: seq<ChatReply>)
    requires |replies| == |items|
    ensures forall k :: 0 <= k < |items| ==> Outcomes(items, replies)[k] == ItemOutcome(items[k], replies[k])
  {
    forall k | 0 <= k < |items| ensures Outcomes(items, replies)[k] == ItemOutcome(items[k], replies[k]) {
      OutcomeAt(items, replies, k);
    }
  }

  /** What `execute` returns or throws, and the requests it sends on the way. */
  datatype Execution = Execution(result: Result<seq<Row>, Thrown>, sent: seq<HttpRequest>)

  function ExecuteResult(apiKey: Option<string>, items: seq<ItemParams>, continueOnFail: bool,
                         replies: seq<ChatReply>): Execution
    requires |replies| == |items|
  {
    if !Truthy(apiKey) then Execution(Failure(Error(NoValidApiKey)), [])
    else ItemsResult(apiKey.value, items, continueOnFail, replies)
  }

  /** The pass over the items with the key `key`. */
  function ItemsResult(key: string, items: seq<ItemParams>, continueOnFail: bool,
                       replies: seq<ChatReply>): Execution
    requires |replies| == |items|
  {
    match Run(Outcomes(items, replies), |items|, continueOnFail)
    case Running(rows) => Execution(Success(rows), SentRequests(key, items, |items|))
    case Aborted(t, at) =>
      Execution(Failure(t), if at < |items| then SentRequests(key, items, at + 1) else [])
  }

  lemma {:induction false} AbortedStays(outcomes: seq<Option<Result<string, Thrown>>>, m: nat, n: nat,
                                        continueOnFail: bool)
    requires m <= n <= |outcomes|
    requires Run(outcomes, m, continueOnFail).Aborted?
    ensures Run(outcomes, n, continueOnFail) == Run(outcomes, m, continueOnFail)
    decreases n - m
  {
    if m < n {
      AbortedStays(outcomes, m, n - 1, continueOnFail);
    }
  }

  /** `execute` as the node runs it: the key check once, before any item, then
      the loop over the items. */
  method Execute(apiKey: Option<string>, items: seq<ItemParams>, continueOnFail: bool, replies: seq<ChatReply>)
    returns (result: Result<seq<Row>, Thrown>, sent: seq<HttpRequest>)
    requires |replies| == |items|
    ensures Execution(result, sent) == ExecuteResult(apiKey, items, continueOnFail, replies)
    ensures !Truthy(apiKey) ==> result == Failure(Error(NoValidApiKey)) && sent == []
  {
    if !Truthy(apiKey) {
      return Failure(Error(NoValidApiKey)), [];
    }
    result, sent := ProcessItems(apiKey.value, items, continueOnFail, replies);
  }

  /** The loop of `execute`: one pass over the items; `replies[i]` answers the
      request of item `i` if it sends one. */
  method ProcessItems(key: string, items: seq<ItemParams>, continueOnFail: bool, replies: seq<ChatReply>)
    returns (result: Result<seq<Row>, Thrown>, sent: seq<HttpRequest>)
    requires |replies| == |items|
    ensures Execution(result, sent) == ItemsResult(key, items, continueOnFail, replies)
  {
    ghost var outcomes := Outcomes(items, replies);
    var returnData: seq<Row> := [];
    sent := [];
    var i := 0;
    while i < |items|
      invariant 0 <= i <= |items|
      invariant Run(outcomes, i, continueOnFail) == Running(returnData)
      invariant sent == SentRequests(key, items, i)
    {
      var outcome, request := RunItem(key, items[i], replies[i]);
      OutcomeAt(items, replies, i);
      assert Run(outcomes, i + 1, continueOnFail) == Step(Running(returnData), outcome, i, continueOnFail);
      SentRequestsStep(key, items, i);
      if request.Some? {
        sent := sent + [request.value];
      }
      if outcome.Some? {
        if outcome.value.Success? {
          returnData := returnData + [Row(ResponseJson(outcome.value.value), i)];
        } else if continueOnFail {
          returnData := returnData + [Row(ErrorJson(MessageOf(outcome.value.error)), i)];
        } else {
          AbortedStays(outcomes, i + 1, |items|, continueOnFail);
          assert Run(outcomes, |items|, continueOnFail) == Aborted(outcome.value.error, i);
          return Failure(outcome.value.error), sent;
        }
      }
      assert Run(outcomes, i + 1, continueOnFail) == Running(returnData);
      i := i + 1;
    }
    result := Success(returnData);
  }

  /** The indices below `n` of the items that produce something (the `chat` items). */
  function Produced(outcomes: seq<Option<Result<string, Thrown>>>, n: nat): (r: seq<nat>)
    requires n <= |outcomes|
    ensures |r| <= n
    ensures forall k :: 0 <= k < |r| ==> r[k] < n && outcomes[r[k]].Some?
    ensures forall k, l :: 0 <= k < l < |r| ==> r[k] < r[l]
    ensures forall i :: 0 <= i < n && outcomes[i].Some? ==> i in r
  {
    if n == 0 then []
    else if outcomes[n - 1].Some? then Produced(outcomes, n - 1) + [n - 1]
    else Produced(outcomes, n - 1)
  }

  /** The items that produce something are exactly the `chat` items: the list of
      producing indices is the list of `chat` indices. */
  lemma {:induction false} ProducedChatIndices(items: seq<ItemParams>, replies: seq<ChatReply>, n: nat)
    requires |replies| == |items| && n <= |items|
    ensures Produced(Outcomes(items, replies), n) == ChatIndices(items, n)
  {
    if n > 0 {
      ProducedChatIndices(items, replies, n - 1);
      OutcomeAt(items, replies, n - 1);
    }
  }

  /** With `continueOnFail`, the rows are those of the `chat` items, in order, each
      tagged with its item's index; the other items leave no row. */
  lemma {:induction false} ContinueOnFailRows(outcomes: seq<Option<Result<string, Thrown>>>, n: nat)
    requires n <= |outcomes|
    ensures Run(outcomes, n, true).Running?
    ensures var rows := Run(outcomes, n, true).rows; var idx := Produced(outcomes, n);
      && |rows| == |idx|
      && forall k :: 0 <= k < |rows| ==> rows[k] == RowFor(outcomes[idx[k]].value, idx[k])
  {
    if n > 0 {
      ContinueOnFailRows(outcomes, n - 1);
    }
  }

  /** Item `j` is the first `chat` item whose processing throws. */
  ghost predicate FirstFailure(outcomes: seq<Option<Result<string, Thrown>>>, j: nat) {
    && j < |outcomes|
    && outcomes[j].Some? && outcomes[j].value.Failure?
    && forall i :: 0 <= i < j && outcomes[i].Some? ==> outcomes[i].value.Success?
  }

  /** Without `continueOnFail`, the run gets through the first `n` items exactly
      when every `chat` item among them succeeds, and then it has pushed the
      same rows as a run that goes on after failures: one response row per
      `chat` item (see `ContinueOnFailRows`). */
  lemma {:induction false} CompletesIffChatsSucceed(outcomes: seq<Option<Result<string, Thrown>>>, n: nat)
    requires n <= |outcomes|
    ensures Run(outcomes, n, false).Running? <==>
      forall i :: 0 <= i < n && outcomes[i].Some? ==> outcomes[i].value.Success?
    ensures Run(outcomes, n, false).Running? ==> Run(outcomes, n, false) == Run(outcomes, n, true)
  {
    if n > 0 {
      CompletesIffChatsSucceed(outcomes, n - 1);
    }
  }

  /** Without `continueOnFail`, the first failing `chat` item ends the run with its
      own error. */
  lemma {:induction false} FirstFailureAborts(outcomes: seq<Option<Result<string, Thrown>>>, n: nat, j: nat)
    requires j < n <= |outcomes|
    requires FirstFailure(outcomes, j)
    ensures Run(outcomes, n, false) == Aborted(outcomes[j].value.error, j)
  {
    if j == n - 1 {
      CompletesIffChatsSucceed(outcomes, j);
    } else {
      FirstFailureAborts(outcomes, n - 1, j);
      AbortedStays(outcomes, n - 1, n, false);
    }
  }

  /** `execute` with `continueOnFail`: exactly one row per `chat` item, in item
      order, tagged with that item's index; items with another operation raise no
      error and leave no row, so there may be fewer rows than items. */
  lemma ExecuteContinueOnFail(apiKey: Option<string>, items: seq<ItemParams>, replies: seq<ChatReply>)
    requires Truthy(apiKey) && |replies| == |items|
    ensures var e := ExecuteResult(apiKey, items, true, replies);
      var idx := Produced(Outcomes(items, replies), |items|);
      && e.result.Success?
      && |e.result.value| == |idx| <= |items|
      && e.sent == SentRequests(apiKey.value, items, |items|)
      && (forall i :: 0 <= i < |items| && items[i].operation == "chat" ==> i in idx)
      && forall k :: 0 <= k < |idx| ==>
        && items[idx[k]].operation == "chat"
        && e.result.value[k] == RowFor(ChatOutcome(replies[idx[k]]), idx[k])
  {
    OutcomesMatch(items, replies);
    ContinueOnFailRows(Outcomes(items, replies), |items|);
  }

  /** `execute` without `continueOnFail` returns rows exactly when every `chat`
      item succeeds; the rows are then one response row per `chat` item, in
      order, tagged with its index, and every `chat` item has sent its request. */
  lemma ExecuteSucceedsIffChatsSucceed(apiKey: Option<string>, items: seq<ItemParams>, replies: seq<ChatReply>)
    requires Truthy(apiKey) && |replies| == |items|
    ensures ExecuteResult(apiKey, items, false, replies).result.Success? <==>
      forall i :: 0 <= i < |items| && items[i].operation == "chat" ==> ChatOutcome(replies[i]).Success?
    ensures ExecuteResult(apiKey, items, false, replies).result.Success? ==>
      ExecuteResult(apiKey, items, false, replies) == ExecuteResult(apiKey, items, true, replies)
  {
    OutcomesMatch(items, replies);
    CompletesIffChatsSucceed(Outcomes(items, replies), |items|);
  }

  /** Item `j` is the first `chat` item whose processing throws. */
  ghost predicate FailsFirstAt(items: seq<ItemParams>, replies: seq<ChatReply>, j: nat)
    requires |replies| == |items|
  {
    && j < |items|
    && items[j].operation == "chat" && ChatOutcome(replies[j]).Failure?
    && forall i :: 0 <= i < j && items[i].operation == "chat" ==> ChatOutcome(replies[i]).Success?
  }

  /** `execute` without `continueOnFail` re-throws the error of the first failing
      `chat` item, and no later item sends a request. */
  lemma ExecuteAbortsOnFirstFailure(apiKey: Option<string>, items: seq<ItemParams>, replies: seq<ChatReply>, j: nat)
    requires Truthy(apiKey) && |replies| == |items|
    requires FailsFirstAt(items, replies, j)
    ensures ExecuteResult(apiKey, items, false, replies)
      == Execution(Failure(ChatOutcome(replies[j]).error), SentRequests(apiKey.value, items, j + 1))
  {
    var outcomes := Outcomes(items, replies);
    OutcomesMatch(items, replies);
    assert FirstFailure(outcomes, j);
    FirstFailureAborts(outcomes, |items|, j);
  }
}
