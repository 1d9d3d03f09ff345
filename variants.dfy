/** How the two versions of the node differ on the same inputs: the model
    description for an entry without owner, whitespace-only completions, items
    whose operation is not `chat`, a missing API key in `getModels`, the message
    of a thrown value, and the rows of a run that goes on after failures. */
module Variants {
  import opened Api
  import opened Text
  import opened Chat
  import Node = ThreeZeroTwoAi
  import Legacy = ThreeZeroTwoAILegacy

  /** An entry with an owner gives the same option in both versions; without one,
      the newer version leaves the description undefined where the older one
      sets it to the empty string. */
  lemma ModelOptionVariants(m: ModelEntry)
    ensures Truthy(m.ownedBy) ==> Node.ModelOption(m) == Legacy.ModelOption(m)
    ensures !Truthy(m.ownedBy) ==>
      && Node.ModelOption(m).description == None
      && Legacy.ModelOption(m).description == Some("")
      && Node.ModelOption(m).name == Legacy.ModelOption(m).name == m.id
  {
  }

  /** Every completion the newer version accepts, the older one accepts with the
      same text; the older one also accepts exactly the non-empty whitespace-only
      completions, which it turns into the empty response. */
  lemma ReadContentVariants(response: Option<ChatResponse>)
    ensures Node.ReadContent(response).Success? ==>
      Legacy.ReadContent(response) == Success(Node.ReadContent(response).value)
    ensures Legacy.ReadContent(response).Success? && Node.ReadContent(response).Failure? <==>
      FirstContent(response).Some? && FirstContent(response).value != "" && AllWhitespace(FirstContent(response).value)
    ensures Legacy.ReadContent(response).Success? && Node.ReadContent(response).Failure? ==>
      Legacy.ReadContent(response).value == ""
  {
    Node.ReadContentAccepts(response);
    Legacy.ReadContentAccepts(response);
  }

  /** For an item whose operation is not `chat`, the newer version throws
      `Unsupported operation`, which becomes an error row, and the older one
      produces nothing. That neither sends a request is stated by each `RunItem`. */
  lemma UnsupportedOperationVariants(p: ItemParams, reply: ChatReply, index: nat)
    requires p.operation != "chat"
    ensures Node.ItemOutcome(p, reply) == Failure(Error("Unsupported operation: " + p.operation))
    ensures Legacy.ItemOutcome(p, reply) == None
    ensures var r := Node.ItemOutcome(p, reply);
      Node.RowFor(r, index).json == ErrorJson(Some("Unsupported operation: " + p.operation))
  {
  }

  /** Without a usable API key (absent or empty) the newer `getModels` fails with
      its own message whatever the transport would answer. The older one still
      asks for the model list, with `Bearer undefined` for an absent key and
      `Bearer ` for an empty one, and returns the models whenever the reply
      holds a non-empty list. */
  lemma GetModelsWithoutKey(apiKey: Option<string>, fetch: HttpRequest -> Result<ModelsBody, Thrown>)
    requires !Truthy(apiKey)
    ensures Node.GetModels(apiKey, fetch) == Failure(Node.ApiKeyRequired)
    ensures Headers(Legacy.Render(apiKey))["Authorization"] ==
      if apiKey == None then "Bearer undefined" else "Bearer "
    ensures var reply := fetch(ModelsRequest(Legacy.Render(apiKey)));
      reply.Success? && Legacy.ListModels(reply.value).Success? ==>
        Legacy.GetModels(apiKey, fetch) == Legacy.ListModels(reply.value)
    ensures Legacy.GetModels(apiKey, fetch).Success? <==>
      var reply := fetch(ModelsRequest(Legacy.Render(apiKey)));
      reply.Success? && reply.value.DataArray? && reply.value.models != []
  {
  }

  /** A thrown `Error` gives the same message in both versions. Any other thrown
      value gives `Unknown error` in the newer version; the older one reads its
      `message` property, which is undefined when it has none. */
  lemma MessageOfVariants(t: Thrown)
    ensures t.Error? ==> Legacy.MessageOf(t) == Some(Node.MessageOf(t)) && Node.MessageOf(t) == t.message
    ensures !t.Error? ==> Node.MessageOf(t) == Node.UnknownError
    ensures t.MessageCarrier? ==> Legacy.MessageOf(t) == Some(t.message)
    ensures t.NonError? ==> Legacy.MessageOf(t) == None && Legacy.Render(Legacy.MessageOf(t)) == "undefined"
  {
  }

  /** When every item produces something, the indices of the producing items are
      all the indices, in order. */
  lemma {:induction false} ProducedAll(outcomes: seq<Option<Result<string, Thrown>>>, n: nat)
    requires n <= |outcomes|
    requires forall i :: 0 <= i < n ==> outcomes[i].Some?
    ensures |Legacy.Produced(outcomes, n)| == n
    ensures forall k :: 0 <= k < n ==> Legacy.Produced(outcomes, n)[k] == k
  {
    if n > 0 {
      ProducedAll(outcomes, n - 1);
    }
  }

  /** A `chat` item that the newer version answers with a response row gets the
      same row from the older version. */
  lemma RowAligns(p: ItemParams, reply: ChatReply, index: nat)
    requires p.operation == "chat"
    ensures Node.RowFor(Node.ItemOutcome(p, reply), index).json.ResponseJson? ==>
      Legacy.RowFor(Legacy.ChatOutcome(reply), index) == Node.RowFor(Node.ItemOutcome(p, reply), index)
  {
    Node.ItemOutcomeCases(p, reply);
    Legacy.ChatOutcomeCases(reply);
    if Node.ItemOutcome(p, reply).Success? {
      assert !AllWhitespace(FirstContent(reply.value).value);
    }
  }

  /** In the older version, with `continueOnFail` and only `chat` items, every
      item gives exactly one row, in order, tagged with its index. */
  lemma LegacyChatRows(apiKey: Option<string>, items: seq<ItemParams>, replies: seq<ChatReply>)
    requires Truthy(apiKey) && |replies| == |items|
    requires forall i :: 0 <= i < |items| ==> items[i].operation == "chat"
    ensures var o := Legacy.ExecuteResult(apiKey, items, true, replies);
      && o.result.Success?
      && |o.result.value| == |items|
      && o.sent == SentRequests(apiKey.value, items, |items|)
      && forall i :: 0 <= i < |items| ==> o.result.value[i] == Legacy.RowFor(Legacy.ChatOutcome(replies[i]), i)
  {
    Legacy.OutcomesMatch(items, replies);
    ProducedAll(Legacy.Outcomes(items, replies), |items|);
    Legacy.ExecuteContinueOnFail(apiKey, items, replies);
  }

  /** With `continueOnFail` and only `chat` items, both versions give one row per
      item, in order, with the same `pairedItem`, and send the same requests; a
      response row of the newer version is the same row in the older one. */
  lemma ChatRowsAlign(apiKey: Option<string>, items: seq<ItemParams>, replies: seq<ChatReply>)
    requires Truthy(apiKey) && |replies| == |items|
    requires forall i :: 0 <= i < |items| ==> items[i].operation == "chat"
    ensures var n := Node.ExecuteResult(apiKey, items, true, replies);
      var o := Legacy.ExecuteResult(apiKey, items, true, replies);
      && n.result.Success? && o.result.Success?
      && |n.result.value| == |o.result.value| == |items|
      && n.sent == o.sent
      && forall i :: 0 <= i < |items| ==>
        && n.result.value[i].pairedItem == o.result.value[i].pairedItem == i
        && (n.result.value[i].json.ResponseJson? ==> o.result.value[i] == n.result.value[i])
  {
    LegacyChatRows(apiKey, items, replies);
    Node.ExecuteContinueOnFail(apiKey, items, replies);
    forall i | 0 <= i < |items| {
      RowAligns(items[i], replies[i], i);
    }
  }
}
