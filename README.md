# 302.AI chat node for n8n — a Dafny model

The 302.AI node is an n8n community node. It gives a workflow access to the chat
completions of the 302.AI API. It does two things:

- `getModels` fills the model dropdown. It asks `GET /v1/models?llm=1` for the
  model list, checks the shape of the reply, turns each model into a dropdown
  option and sorts the options by name.
- `execute` checks the API key once, then loops over the input items. For each
  item it builds the message list (an optional system message, then the user
  message as plain text or as a text part plus an image part). It merges the
  request body, posts it to `/v1/chat/completions`, trims
  `choices[0].message.content` and pushes one output row. When `continueOnFail`
  is set, a failing item pushes an error row instead of stopping the loop.

The repository holds two versions of the node class, and both are modelled:

- `nodes/ThreeZeroTwoAi/ThreeZeroTwoAi.node.ts` is the newer one (module `ThreeZeroTwoAi`).
- `nodes/ThreeZeroTwoAI/ThreeZeroTwoAi.node.ts` is the older one (module `ThreeZeroTwoAILegacy`).

The two versions differ in these ways:

1. The older `getModels` has no API-key check. An absent key is sent as `Bearer undefined` and an empty one as `Bearer `.
2. Its model options get an empty-string description instead of an undefined one.
3. Its `execute` tests the completion before trimming it, so a whitespace-only completion is accepted as `""`. The newer one trims first and rejects it.
4. It skips items whose operation is not `chat` instead of throwing for them.
5. Its error texts name the API "302.ai" where the newer file writes "302.AI": the malformed-reply, no-models and invalid-completion messages.
6. It reads `error.message` from whatever was thrown. The newer file uses the message of an `Error` only and writes `Unknown error` for anything else. For a thrown value without a `message` the older `getModels` says `Failed to load models: undefined`, and the `error` field of the older error row is undefined.

The model follows each file's code.

## Layout

- `api.dfy` (`Api`): the values exchanged with the host and the API. These are
  the request options, the reply shapes with every optional-chaining step as an
  `Option`, the dropdown options, the output rows, and what a `throw` carries.
- `text.dfy` (`Text`): `String.prototype.trim` over the ECMAScript whitespace
  and line-terminator characters.
- `ordering.dfy` (`Ordering`): the name order and the stable sort of the dropdown.
- `chat.dfy` (`Chat`): the parts both versions build the same way. These are
  the headers, the message list, the merged body, the two requests and the path
  `choices[0].message.content`.
- `node.dfy` (`ThreeZeroTwoAi`) and `legacy_node.dfy` (`ThreeZeroTwoAILegacy`):
  `getModels` and `execute` of each version.
  - `getModels` is a pure pipeline, so it is modelled as functions.
  - `execute` is modelled as methods that mirror the node's code. `RunItem`
    pushes onto the message list and updates the user message. `ProcessItems`
    loops over the items and pushes rows. Both are proved against the
    specification functions `ItemOutcome`, `Run` and `ItemsResult`.
- `variants.dfy` (`Variants`): the differences between the two versions, stated
  on the same inputs.

How the host's calls are modelled:

- **The credential** is a parameter `apiKey: Option<string>`. `None` is an
  absent key. JavaScript truthiness is `Truthy`.
- **The model-list request** of `getModels` is a function `fetch` from request
  to reply or thrown value.
- **The chat requests** of `execute` are answered by `replies`, one reply per
  item. `execute` returns the requests it sent, and the model proves which
  requests those are.

## Model

| member | source | states |
|---|---|---|
| Text.TrimStart | nodes/ThreeZeroTwoAi/ThreeZeroTwoAi.node.ts:285 | the result is a suffix of the input, everything dropped in front of it is whitespace, and it does not start with whitespace |
| Text.TrimEnd | nodes/ThreeZeroTwoAi/ThreeZeroTwoAi.node.ts:285 | the result is a prefix of the input, everything dropped after it is whitespace, and it does not end with whitespace |
| Text.Trim | nodes/ThreeZeroTwoAi/ThreeZeroTwoAi.node.ts:285 | the trimmed completion has no whitespace at either end |
| Text.TrimKeepsInfix | nodes/ThreeZeroTwoAi/ThreeZeroTwoAi.node.ts:285 | `trim` keeps exactly one infix of the input; only whitespace lies before and after it |
| Text.TrimEmptyIffBlank | nodes/ThreeZeroTwoAi/ThreeZeroTwoAi.node.ts:285-289 | the trimmed completion is empty exactly when the content is whitespace only |
| Text.TrimIdempotent | nodes/ThreeZeroTwoAi/ThreeZeroTwoAi.node.ts:285 | trimming an already trimmed completion changes nothing |
| Text.TrimPaddedExample | nodes/ThreeZeroTwoAI/ThreeZeroTwoAi.node.ts:256 | `"  hi  "` trims to `"hi"` |
| Ordering.NameLeTotal | nodes/ThreeZeroTwoAi/ThreeZeroTwoAi.node.ts:203 | any two names are comparable |
| Ordering.NameLeTransitive | nodes/ThreeZeroTwoAi/ThreeZeroTwoAi.node.ts:203 | the name order is transitive |
| Ordering.NameLeAntisymmetric | nodes/ThreeZeroTwoAi/ThreeZeroTwoAi.node.ts:203 | two names that each sort no later than the other are equal |
| Ordering.NameLeReflexive | nodes/ThreeZeroTwoAi/ThreeZeroTwoAi.node.ts:203 | a name sorts no later than itself |
| Ordering.InsertByName | nodes/ThreeZeroTwoAi/ThreeZeroTwoAi.node.ts:203 | inserting one option into a sorted list keeps it sorted and adds exactly that option |
| Ordering.SortByName | nodes/ThreeZeroTwoAi/ThreeZeroTwoAi.node.ts:203 | the sorted options are ascending by name and a permutation of the input |
| Ordering.NamedInsert | nodes/ThreeZeroTwoAi/ThreeZeroTwoAi.node.ts:203 | an inserted option goes in front of every option with the same name, which keeps the sort stable because the inserted option comes earlier in the input |
| Ordering.SortByNameStable | nodes/ThreeZeroTwoAi/ThreeZeroTwoAi.node.ts:203 | the sort is stable: options with the same name keep their input order |
| Ordering.SortExample | nodes/ThreeZeroTwoAI/ThreeZeroTwoAi.node.ts:165 | models `b`, `a` come out as `a`, `b` |
| Chat.HeadersCarryKey | nodes/ThreeZeroTwoAi/ThreeZeroTwoAi.node.ts:180-183 | a request carries exactly the headers `Authorization: Bearer <key>` and `Content-Type: application/json` |
| Chat.Headers | nodes/ThreeZeroTwoAi/ThreeZeroTwoAi.node.ts:180-183 | the two request headers; `Chat.HeadersCarryKey` states them |
| Chat.ModelsRequest | nodes/ThreeZeroTwoAi/ThreeZeroTwoAi.node.ts:178-186 | `GET https://api.302.ai/v1/models?llm=1` with the two headers and no body |
| Chat.UserContent | nodes/ThreeZeroTwoAi/ThreeZeroTwoAi.node.ts:251-261 | the plain message, or the text part then the image part when an image URL is given; `Chat.MessagesRoundTrip` shows the two forms are never confused |
| Chat.ChatMessages | nodes/ThreeZeroTwoAi/ThreeZeroTwoAi.node.ts:242-263 | there are one or two messages; a system message comes first exactly when the system prompt is non-empty; the last message is the user message |
| Chat.MessagesRoundTrip | nodes/ThreeZeroTwoAi/ThreeZeroTwoAi.node.ts:251-261 | the system prompt, the message and the image URL can all be read back from the message list, so a plain message and a text+image pair are never confused |
| Chat.RequestBody | nodes/ThreeZeroTwoAi/ThreeZeroTwoAi.node.ts:265-270 | the spread body; `Chat.RequestBodyPrecedence` states its keys and which value wins |
| Chat.RequestBodyPrecedence | nodes/ThreeZeroTwoAi/ThreeZeroTwoAi.node.ts:265-270 | the body has `model`, `messages`, `temperature` and every additional field; an additional field overrides a base key of the same name, and the other base keys keep their values |
| Chat.ChatRequest | nodes/ThreeZeroTwoAi/ThreeZeroTwoAi.node.ts:272-281 | `POST https://api.302.ai/v1/chat/completions` with the two headers and the merged body of the item's messages; `RunItem` in each version is proved to send exactly this request |
| Chat.FirstContent | nodes/ThreeZeroTwoAi/ThreeZeroTwoAi.node.ts:285 | content is found exactly when the reply, `choices`, a first choice, its message and its content are all present, and then it is that content |
| Chat.SentRequests | nodes/ThreeZeroTwoAi/ThreeZeroTwoAi.node.ts:272-283 | the first `n` items send at most `n` requests (what they are is stated by `Chat.SentRequestsPerChat`) |
| Chat.ChatIndices | nodes/ThreeZeroTwoAi/ThreeZeroTwoAi.node.ts:227-233 | exactly the indices of the `chat` items below `n`, in increasing order |
| Chat.SentRequestsPerChat | nodes/ThreeZeroTwoAi/ThreeZeroTwoAi.node.ts:227-283 | the first `n` items send exactly one request per `chat` item, in item order, each the chat request built from its own item; other items send none |
| ThreeZeroTwoAi.MessageOf | nodes/ThreeZeroTwoAi/ThreeZeroTwoAi.node.ts:211 | the message of a thrown `Error`, `Unknown error` for anything else; compared with the older version by `Variants.MessageOfVariants` |
| ThreeZeroTwoAi.ModelOption | nodes/ThreeZeroTwoAi/ThreeZeroTwoAi.node.ts:198-202 | name and value are the model id; the description is `Owned by: <owner>` for a non-empty owner and undefined otherwise (`Variants.ModelOptionVariants`) |
| ThreeZeroTwoAi.ModelOptionsOf | nodes/ThreeZeroTwoAi/ThreeZeroTwoAi.node.ts:197-202 | one option per model, in order, each built from its model |
| ThreeZeroTwoAi.ListModels | nodes/ThreeZeroTwoAi/ThreeZeroTwoAi.node.ts:193-209 | succeeds exactly on a non-empty `data` array; a non-array gives the malformed error and an empty array gives the no-models error; the result is sorted by name, a permutation of the mapped models, and stable |
| ThreeZeroTwoAi.GetModels | nodes/ThreeZeroTwoAi/ThreeZeroTwoAi.node.ts:172-214 | a missing or empty key fails with "API key is required to load models" for every transport; every other failure carries the `Failed to load models:` prefix: a transport error with its message, a malformed reply and an empty list with their own; a success needs a non-empty `data` array and is sorted by name, a permutation of the mapped models, stable, with one option per model |
| ThreeZeroTwoAi.GetModelsOptions | nodes/ThreeZeroTwoAi/ThreeZeroTwoAi.node.ts:197-202 | the options of a successful list are exactly the options built from the models of the reply |
| ThreeZeroTwoAi.ReadContent | nodes/ThreeZeroTwoAi/ThreeZeroTwoAi.node.ts:285-289 | the trimmed content or the invalid-format error; `ThreeZeroTwoAi.ReadContentAccepts` states when each |
| ThreeZeroTwoAi.ReadContentAccepts | nodes/ThreeZeroTwoAi/ThreeZeroTwoAi.node.ts:285-289 | content is accepted exactly when it is present and not whitespace only; the response is the trimmed content, which is non-empty and trimmed; otherwise "Invalid response format from 302.AI API" |
| ThreeZeroTwoAi.ItemOutcome | nodes/ThreeZeroTwoAi/ThreeZeroTwoAi.node.ts:229-289 | what one item's `try` block yields or throws; `ThreeZeroTwoAi.ItemOutcomeCases` states each case |
| ThreeZeroTwoAi.ItemOutcomeCases | nodes/ThreeZeroTwoAi/ThreeZeroTwoAi.node.ts:229-289 | an operation other than `chat` throws `Unsupported operation: <op>`; a failed request throws its own error; a reply without acceptable content throws "Invalid response format from 302.AI API"; an item succeeds exactly when it is a `chat` item whose reply carries acceptable content |
| ThreeZeroTwoAi.RunItem | nodes/ThreeZeroTwoAi/ThreeZeroTwoAi.node.ts:229-289 | the loop body sends exactly the request built from the item's parameters (none for an unsupported operation) and produces the item's outcome |
| ThreeZeroTwoAi.RowFor | nodes/ThreeZeroTwoAi/ThreeZeroTwoAi.node.ts:291-306 | `{response}` for a success and `{error: message}` for a failure, tagged with the item index |
| ThreeZeroTwoAi.Step | nodes/ThreeZeroTwoAi/ThreeZeroTwoAi.node.ts:291-311 | one loop pass: push the item's row, or stop with its error when `continueOnFail` is off |
| ThreeZeroTwoAi.Run | nodes/ThreeZeroTwoAi/ThreeZeroTwoAi.node.ts:227-313 | the loop state after the first `n` items; its properties are `ContinueOnFailRows`, `CompletesIffAllSucceed`, `FirstFailureAborts` and `AbortedStays` |
| ThreeZeroTwoAi.AbortedStays | nodes/ThreeZeroTwoAi/ThreeZeroTwoAi.node.ts:311 | once an item has thrown, no later item changes the result |
| ThreeZeroTwoAi.Execute | nodes/ThreeZeroTwoAi/ThreeZeroTwoAi.node.ts:218-316 | without a truthy key it throws "No valid API key provided" and sends nothing; otherwise it returns the rows, or throws, exactly as the item pass specifies |
| ThreeZeroTwoAi.ProcessItems | nodes/ThreeZeroTwoAi/ThreeZeroTwoAi.node.ts:227-315 | the loop returns the rows or the error of the item that stopped it, and it sends the requests of the items up to and including that one |
| ThreeZeroTwoAi.ContinueOnFailRows | nodes/ThreeZeroTwoAi/ThreeZeroTwoAi.node.ts:291-309 | with `continueOnFail`, each item gives exactly one row, in order, tagged with its index |
| ThreeZeroTwoAi.CompletesIffAllSucceed | nodes/ThreeZeroTwoAi/ThreeZeroTwoAi.node.ts:227-311 | without `continueOnFail`, the pass completes exactly when every item succeeds, and then the rows are the responses in item order |
| ThreeZeroTwoAi.FirstFailureAborts | nodes/ThreeZeroTwoAi/ThreeZeroTwoAi.node.ts:297-311 | without `continueOnFail`, the first failing item ends the run with its own error |
| ThreeZeroTwoAi.ExecuteContinueOnFail | nodes/ThreeZeroTwoAi/ThreeZeroTwoAi.node.ts:227-309 | with `continueOnFail`, `execute` returns one row per input item with `pairedItem.item` equal to its index; a response row exactly for the items that succeeded, an error row otherwise (an unsupported operation included); one request per `chat` item |
| ThreeZeroTwoAi.ExecuteSucceedsIffAllSucceed | nodes/ThreeZeroTwoAi/ThreeZeroTwoAi.node.ts:227-315 | without `continueOnFail`, `execute` returns rows exactly when every item succeeds; they are then one response row per item, in order, tagged with its index, and every item has sent its request |
| ThreeZeroTwoAi.ExecuteAbortsOnFirstFailure | nodes/ThreeZeroTwoAi/ThreeZeroTwoAi.node.ts:297-311 | without `continueOnFail`, `execute` throws the first failing item's error, and no later item sends a request |
| ThreeZeroTwoAILegacy.MessageOf | nodes/ThreeZeroTwoAI/ThreeZeroTwoAi.node.ts:269 | `error.message` of whatever was thrown, undefined when it has none (`Variants.MessageOfVariants`) |
| ThreeZeroTwoAILegacy.Render | nodes/ThreeZeroTwoAI/ThreeZeroTwoAi.node.ts:145 | how a template literal renders an optional string: the string, or `undefined` |
| ThreeZeroTwoAILegacy.ModelOption | nodes/ThreeZeroTwoAI/ThreeZeroTwoAi.node.ts:160-164 | name and value are the model id; the description is `Owned by: <owner>` for a non-empty owner and `''` otherwise (`Variants.ModelOptionVariants`) |
| ThreeZeroTwoAILegacy.ModelOptionsOf | nodes/ThreeZeroTwoAI/ThreeZeroTwoAi.node.ts:159-164 | one option per model, in order, each built from its model |
| ThreeZeroTwoAILegacy.ListModels | nodes/ThreeZeroTwoAI/ThreeZeroTwoAi.node.ts:155-171 | succeeds exactly on a non-empty `data` array; a missing or non-array `data` gives the malformed error and an empty array gives the no-models error; the result is sorted by name, a permutation of the mapped models, and stable |
| ThreeZeroTwoAILegacy.GetModels | nodes/ThreeZeroTwoAI/ThreeZeroTwoAi.node.ts:139-175 | the request always goes out, with the key as the template literal renders it; every failure carries the `Failed to load models:` prefix: a transport error with its message (`undefined` when it has none), a malformed reply and an empty list with their own; a success needs a non-empty `data` array and is sorted by name, a permutation of the mapped models, stable, with one option per model |
| ThreeZeroTwoAILegacy.GetModelsOptions | nodes/ThreeZeroTwoAI/ThreeZeroTwoAi.node.ts:159-164 | the options of a successful list are exactly the options built from the models of the reply, with the `''` default description |
| ThreeZeroTwoAILegacy.ReadContent | nodes/ThreeZeroTwoAI/ThreeZeroTwoAi.node.ts:252-256 | the check on the untrimmed content, then the trim; `ThreeZeroTwoAILegacy.ReadContentAccepts` states when each result comes |
| ThreeZeroTwoAILegacy.ReadContentAccepts | nodes/ThreeZeroTwoAI/ThreeZeroTwoAi.node.ts:252-256 | content is accepted exactly when it is present and non-empty before trimming; the response is the trimmed content, which is empty exactly when the content was whitespace only |
| ThreeZeroTwoAILegacy.ChatOutcome | nodes/ThreeZeroTwoAI/ThreeZeroTwoAi.node.ts:250-263 | what a `chat` item's `try` block yields or throws; `ThreeZeroTwoAILegacy.ChatOutcomeCases` states each case |
| ThreeZeroTwoAILegacy.ChatOutcomeCases | nodes/ThreeZeroTwoAI/ThreeZeroTwoAi.node.ts:250-256 | a failed request throws its own error; a `chat` item succeeds exactly when its reply carries non-empty content; a reply without such content throws "Invalid response format from 302.ai API" |
| ThreeZeroTwoAILegacy.ItemOutcome | nodes/ThreeZeroTwoAI/ThreeZeroTwoAi.node.ts:198-264 | nothing for an operation other than `chat`, otherwise the chat outcome |
| ThreeZeroTwoAILegacy.RunItem | nodes/ThreeZeroTwoAI/ThreeZeroTwoAi.node.ts:198-264 | a `chat` item sends exactly the request built from its parameters and produces its outcome; any other item sends nothing and produces nothing |
| ThreeZeroTwoAILegacy.RowFor | nodes/ThreeZeroTwoAI/ThreeZeroTwoAi.node.ts:258-272 | `{response}` for a success and `{error: error.message}` for a failure, tagged with the item index |
| ThreeZeroTwoAILegacy.Step | nodes/ThreeZeroTwoAI/ThreeZeroTwoAi.node.ts:198-276 | one loop pass: nothing for a skipped item, otherwise push its row or stop with its error when `continueOnFail` is off |
| ThreeZeroTwoAILegacy.Run | nodes/ThreeZeroTwoAI/ThreeZeroTwoAi.node.ts:189-277 | the loop state after the first `n` items; its properties are `ContinueOnFailRows`, `CompletesIffChatsSucceed`, `FirstFailureAborts` and `AbortedStays` |
| ThreeZeroTwoAILegacy.AbortedStays | nodes/ThreeZeroTwoAI/ThreeZeroTwoAi.node.ts:275 | once an item has thrown, no later item changes the result |
| ThreeZeroTwoAILegacy.Execute | nodes/ThreeZeroTwoAI/ThreeZeroTwoAi.node.ts:179-280 | without a truthy key it throws "No valid API key provided" and sends nothing; otherwise it returns the rows, or throws, exactly as the item pass specifies |
| ThreeZeroTwoAILegacy.ProcessItems | nodes/ThreeZeroTwoAI/ThreeZeroTwoAi.node.ts:189-279 | the loop returns the rows or the error of the `chat` item that stopped it, and it sends the requests of the `chat` items up to and including that one |
| ThreeZeroTwoAILegacy.Produced | nodes/ThreeZeroTwoAI/ThreeZeroTwoAi.node.ts:198-264 | lists, in increasing order, exactly the indices of the items that produce a row (the `chat` items) |
| ThreeZeroTwoAILegacy.ProducedChatIndices | nodes/ThreeZeroTwoAI/ThreeZeroTwoAi.node.ts:198-264 | the items that produce a row are exactly the `chat` items: the producing indices are the `chat` indices of `Chat.ChatIndices`, the same list that orders the sent requests |
| ThreeZeroTwoAILegacy.ContinueOnFailRows | nodes/ThreeZeroTwoAI/ThreeZeroTwoAi.node.ts:258-273 | with `continueOnFail`, the rows are those of the `chat` items, in order, each tagged with its item's index |
| ThreeZeroTwoAILegacy.CompletesIffChatsSucceed | nodes/ThreeZeroTwoAI/ThreeZeroTwoAi.node.ts:189-276 | without `continueOnFail`, the pass completes exactly when every `chat` item succeeds, and then it has pushed the same rows as a run with `continueOnFail`: one response row per `chat` item, tagged with its index |
| ThreeZeroTwoAILegacy.FirstFailureAborts | nodes/ThreeZeroTwoAI/ThreeZeroTwoAi.node.ts:265-276 | without `continueOnFail`, the first failing `chat` item ends the run with its own error |
| ThreeZeroTwoAILegacy.ExecuteContinueOnFail | nodes/ThreeZeroTwoAI/ThreeZeroTwoAi.node.ts:189-273 | with `continueOnFail`, `execute` returns exactly one row per `chat` item, in item order, tagged with that item's index; other items leave no row, so there may be fewer rows than items |
| ThreeZeroTwoAILegacy.ExecuteSucceedsIffChatsSucceed | nodes/ThreeZeroTwoAI/ThreeZeroTwoAi.node.ts:189-279 | without `continueOnFail`, `execute` returns rows exactly when every `chat` item succeeds, and then returns the rows and requests of a run with `continueOnFail` |
| ThreeZeroTwoAILegacy.ExecuteAbortsOnFirstFailure | nodes/ThreeZeroTwoAI/ThreeZeroTwoAi.node.ts:265-276 | without `continueOnFail`, `execute` throws the first failing `chat` item's error, and no later item sends a request |
| Variants.ModelOptionVariants | nodes/ThreeZeroTwoAI/ThreeZeroTwoAi.node.ts:160-164 | a model with an owner gives the same option in both versions; without one, the newer description is undefined and the older one is `''` |
| Variants.ReadContentVariants | nodes/ThreeZeroTwoAI/ThreeZeroTwoAi.node.ts:252-256 | the older version accepts every completion the newer one accepts, with the same text; it also accepts exactly the non-empty whitespace-only completions, and turns them into `""` |
| Variants.UnsupportedOperationVariants | nodes/ThreeZeroTwoAi/ThreeZeroTwoAi.node.ts:231-233 | for an operation other than `chat`, the newer version throws `Unsupported operation: <op>`, which becomes an error row, and the older one produces nothing |
| Variants.GetModelsWithoutKey | nodes/ThreeZeroTwoAI/ThreeZeroTwoAi.node.ts:140-171 | without a usable key (absent or empty), the newer `getModels` fails for every transport; the older one sends `Bearer undefined` or `Bearer `, succeeds exactly when the reply holds a non-empty `data` array, and then returns that list |
| Variants.MessageOfVariants | nodes/ThreeZeroTwoAI/ThreeZeroTwoAi.node.ts:269 | a thrown `Error` gives the same message in both versions; any other thrown value gives `Unknown error` in the newer version, while the older one reads its `message`, undefined when it has none |
| Variants.ProducedAll | nodes/ThreeZeroTwoAI/ThreeZeroTwoAi.node.ts:198-264 | when every item is a `chat` item, every index produces a row, in order |
| Variants.RowAligns | nodes/ThreeZeroTwoAI/ThreeZeroTwoAi.node.ts:252-263 | a `chat` item that gets a response row in the newer version gets the same row in the older one |
| Variants.LegacyChatRows | nodes/ThreeZeroTwoAI/ThreeZeroTwoAi.node.ts:258-273 | in the older version, with `continueOnFail` and only `chat` items, every item gives exactly one row, in order, tagged with its index |
| Variants.ChatRowsAlign | nodes/ThreeZeroTwoAI/ThreeZeroTwoAi.node.ts:189-276 | with `continueOnFail` and only `chat` items, both versions send the same requests and give the same number of rows with the same `pairedItem`s; a newer response row is the same row in the older version |

## Left out

- The HTTPS calls to api.302.ai are not modelled, nor is `this.helpers.request`.
  - In `getModels` the reply is the parameter `fetch`.
  - In `execute`, `replies[i]` answers item `i`. The requirement `|replies| == |items|` is a modelling device, not a demand of the node. A reply given for an item that sends no request is ignored.
- The host calls `getCredentials`, `getNodeParameter`, `continueOnFail` and `getNode` become plain inputs.
  - Errors thrown by `getNodeParameter` are not modelled.
  - The older `getModels` reads `credentials.apiKey` without a guard, outside its `try` (nodes/ThreeZeroTwoAI/ThreeZeroTwoAi.node.ts:145). With no credential object the node throws a `TypeError` there, while the model sends `Bearer undefined`. In the newer file and in both `execute`s an absent credential object is the modelled absent key.
- `async`/`await` is not modelled. Items are processed strictly one after another.
- The `description` UI metadata and the credential descriptor files are left out, as is the compiled `dist/` copy. They hold no logic.
- Ordering.SortByName: compares names by code point instead of `localeCompare`. The locale collation is not modelled, so on names that the two orders rank differently the dropdown order differs from the node's.
- Ordering.SortByName: is an insertion sort. The contract states the observable result, which is sorted, a permutation and stable. It does not state the comparisons the engine's `Array.prototype.sort` makes.
- `temperature` and the numeric additional fields are opaque values that are passed through and never computed on.
- The reply shapes follow the TypeScript interfaces. JavaScript type errors from malformed elements are not modelled:
  - a model without a string `id`;
  - content that is not a string, on which `trim` would throw.
- ThreeZeroTwoAILegacy.MessageOf: a thrown `null` or `undefined` is not modelled. Reading its `message` in the `catch` block would itself throw.
- A thrown value is one of three kinds: an `Error`, another object with a string `message`, or a value without a `message`. A `message` property that is not a string is not modelled.
- ThreeZeroTwoAi.RunItem: replaces `userMessage.content` with a datatype update of a local value. The object is never shared before it is pushed, so nothing aliases it.
- `execute` is split into two methods, `Execute` for the key check and `ProcessItems` for the loop. Together they do what the node's one method does.
