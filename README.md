# Customer-support agent backend: refund gate and event classification

This project models, in Dafny, the two pieces of sequential logic in the
customer-support agent backend:

- **The agent's tools** (`backend/agents.py`), module `Agents`:
  - `product_catalog_lookup`: a lookup in a fixed catalog after lower-casing the name;
  - `order_lookup`: an exact, case-sensitive lookup in a fixed order table;
  - `request_refund`: the refund gate. A refund at or below
    `LARGE_REFUND_THRESHOLD` (100.0) is approved at once. A larger one first
    records a confirmation request in the tool context and answers `pending`.
    When the paused turn is resumed with the human's answer, it answers
    `approved` (refund id suffixed `-HUMAN`) or `rejected`.
- **The HTTP handlers' event folds** (`backend/main.py`), module `Endpoints`:
  - `/message` walks the events of one agent turn and their parts. It collects
    every non-empty text into `responses`. It turns every call of the function
    `adk_request_confirmation` into an approval entry
    `{approval_id, invocation_id, payload}`.
  - `/approve` builds the confirmation message that resumes a paused turn. Its
    fold over the resulting events keeps the texts only.

The folds are written as loops (`PostMessage`, `Approve`), as the handlers
write them. Each loop is proved equal to a recursive specification function
(`Responses`, `Approvals`). The lemmas beside those functions say what the
lists contain:

- membership in both directions;
- the invocation id of an approval comes from the event around the call;
- parts with text and a confirmation call feed both lists;
- events without parts change nothing;
- the nested folds equal one order-preserving filter over all parts of the turn.

The refund gate is a function (`RequestRefund`) returning the tool's answer and
the confirmation request it makes. The tool context is a small class,
`ToolContext`, whose method `RequestConfirmation` records a request. The
module-level method `RequestRefundTool` takes such a context, makes the
decision and calls `RequestConfirmation` on the pending path; it is proved to
agree with `RequestRefund`.

Python's truthiness tests are modelled as the code has them:

- a text counts only when present and non-empty;
- an event's parts count only when the content and its part list are present;
- a catalog hit needs a non-empty entry.

`Option` stands for every field that may be absent (`None` in Python):

- a part's text, function call and function response;
- an event's content;
- a content's role and part list;
- a function call's id, name and arguments;
- a function response's id, name and response;
- the prior human confirmation seen by the refund gate.

What the code does not do, and the model therefore does not do either:

- The code keeps no approval-ticket store. `/approve` does not reject an
  unknown or already-used approval id.
- `request_refund` does not validate its amount or order id. Zero and negative
  amounts are approved automatically (`SmallRefundAutoApproved` holds for
  every amount at or below the threshold).
- Misses of both lookups report their text under `error_message`. The
  catalog lower-cases the input and matches it exactly against keys that are
  already lower case.

## Model

| member | source | states |
|---|---|---|
| `Agents.ProductCatalogLookup` | backend/agents.py:18-27 | success exactly when the lower-cased name is a catalog key, with that entry; a miss reports "Product '<name>' not found" with the name as given |
| `Agents.CaseVariantSameKey` | backend/agents.py:24 | names that differ only in the case of letters lower-case to the same key |
| `Agents.ProductLookupIgnoresCase` | backend/agents.py:18-27 | a case change of the input gives the same success or failure, and the same product information on success |
| `Agents.CatalogKeysFound` | backend/agents.py:19-26 | every catalog key looked up as written returns its own entry |
| `Agents.OrderLookup` | backend/agents.py:30-38 | success exactly for "ORD-001" and "ORD-002" (case-sensitive), with the record whose order id is the key; otherwise "Order not found" |
| `Agents.RefundHint` | backend/agents.py:55 | the approval hint mentions both the order id and the amount |
| `Agents.RequestRefund` | backend/agents.py:41-68 | a confirmation request is made exactly on the pending path; pending exactly when above 100.0 without a prior confirmation; rejected exactly when above 100.0 with a negative confirmation; an approval keeps the amount; the request carries payload (order id, amount) and a hint naming both |
| `Agents.RefundIdInjective` | backend/agents.py:48-64 | two refund ids, each "-AUTO" or "-HUMAN", are equal only for the same order and the same suffix, so two different orders never get the same refund id on either path |
| `Agents.ApprovedSuffixTellsPath` | backend/agents.py:45-66 | an approved refund id ends in "-AUTO" exactly when the amount is at most 100.0, and in "-HUMAN" exactly when it is above |
| `Agents.SmallRefundAutoApproved` | backend/agents.py:41-50 | at or below 100.0 (the boundary and negative amounts included) the result is approved as "REF-<order>-AUTO" with the same amount and no request, whatever the confirmation |
| `Agents.LargeRefundLifecycle` | backend/agents.py:52-68 | above 100.0: first call pending "Awaiting human approval"; resumed with true, approved as "REF-<order>-HUMAN" with no new request; with false, "Refund rejected" with no new request |
| `Agents.FullRefundsOfKnownOrders` | backend/agents.py:30-50 | ORD-001 is Ravi's delivered 250.0 order and its full refund pauses for a human; ORD-002's full 75.0 refund is approved automatically; ORD-999 and "ord-001" are not found |
| `Agents.ToolContext.RequestConfirmation` | backend/agents.py:54-57 | records the confirmation request with the given hint and payload |
| `Agents.RequestRefundTool` | backend/agents.py:43-68 | returns the decision of RequestRefund for the context's confirmation; writes the request into the context on the pending path only and leaves it unchanged otherwise |
| `Endpoints.TextsOfParts` | backend/main.py:93-97 | the texts kept from a part list are non-empty and at most one per part |
| `Endpoints.ApprovalsOfParts` | backend/main.py:99-107 | the approval entries of a part list are at most one per part and all carry the event's invocation id |
| `Endpoints.Responses` | backend/main.py:91-97 | the responses of a turn are non-empty strings, at most one per part of the turn |
| `Endpoints.Approvals` | backend/main.py:91-107 | the approvals of a turn are at most one per part of the turn |
| `Endpoints.FoldParts` | backend/main.py:93-107 | the loop over one event's parts appends exactly that event's texts and approval entries, in part order, to the lists built so far |
| `Endpoints.FoldTexts` | backend/main.py:149-151 | the loop over one event's parts appends exactly that event's non-empty texts, in part order, to the list built so far |
| `Endpoints.PostMessage` | backend/main.py:79-113 | the `/message` loop returns the number of events, exactly `Responses` and exactly `Approvals` of the events, also when both are empty |
| `Endpoints.Approve` | backend/main.py:137-156 | the `/approve` loop returns the number of events and exactly the `responses` that `/message` would build from the same events |
| `Endpoints.TextsOfPartsMembership` | backend/main.py:93-97 | a string is kept from a part list exactly when some part carries it as a non-empty text |
| `Endpoints.ResponsesMembership` | backend/main.py:91-97 | a string is in `responses` exactly when some part of some event carries it as a non-empty text |
| `Endpoints.ApprovalsOfPartsMembership` | backend/main.py:99-107 | an entry comes from a part list exactly when some part is a confirmation call with that id, the event's invocation id and those arguments |
| `Endpoints.ApprovalsMembership` | backend/main.py:91-107 | an entry is in `approvals` exactly when some part is a call named "adk_request_confirmation" whose id and arguments, with its own event's invocation id, make up that entry; calls of any other name add nothing |
| `Endpoints.MixedPartFeedsBothLists` | backend/main.py:96-107 | a part with both a text and a confirmation call contributes to both lists |
| `Endpoints.FoldsAppend` | backend/main.py:91-107 | the folds of two consecutive runs of events are the concatenations of their folds |
| `Endpoints.PartlessEventIgnored` | backend/main.py:91-92 | an event without content or without parts leaves both lists unchanged wherever it occurs |
| `Endpoints.FoldsAreFlatFilters` | backend/main.py:91-107 | the nested folds equal one order-preserving filter over all parts of the turn, in event order then part order, each part tagged with its own event's invocation id |
| `Endpoints.ConfirmationMessage` | backend/main.py:126-135 | the resume message is one user part, neither text nor confirmation call, whose function response answers "adk_request_confirmation" under the approval id with the decision; reading it back gives exactly (approval id, confirmed), where reading back accepts only a part with no text and no function call whose response is exactly {"confirmed": confirmed} |
| `Endpoints.ConfirmationMessageUnique` | backend/main.py:126-135 | any user message from which (approval id, confirmed) reads back is exactly the message `/approve` builds: one part, only a function response, id = approval id, name "adk_request_confirmation", response {"confirmed": confirmed} |
| `Endpoints.ResumedRefundFollowsDecision` | backend/main.py:126-135 | resuming a refund above the threshold with that message approves it as "-HUMAN" when confirmed and rejects it otherwise |

## Left out

- The FastAPI application, CORS middleware, request models and the endpoints as network handlers: framework plumbing. `PostMessage` and `Approve` model only what the handlers compute from the events.
- Loading the API key from the environment and the fatal startup check: configuration and I/O.
- The SQLite session database path and `DatabaseSessionService`: configuration and I/O.
- Session creation in `/message`: a call into the session store, whose "already exists" error the handler swallows and treats as success.
- `runner.run_async`, which drives the agent and resumes a paused turn by invocation id: an external asynchronous runtime. The model takes the list of events it produced as input.
- Wrapping the user's text into a user message before running the turn: input to the runtime only.
- The LLM agents, Gemini models, retry options and the resumable `App` wrapper: configuration of a foreign library with no logic here.
- The browser chat page: UI state, fetch calls, local storage and scrolling.
- Agents.RefundHint: the hint's exact wording depends on how Python renders a float in an f-string. The rendering is a parameter (`amountText`), and only the facts that the hint mentions the order id and that text are stated.
- Agents.RequestRefund: amounts are reals. Python floats are not modelled: there is no rounding, infinity or NaN. A NaN amount would fail the `<=` test and take the pending path.
- Agents.ToLower: lowers the ASCII letters only. Python's `str.lower()` applies full Unicode case mapping, so for names with non-ASCII letters the model's key can differ.
- Agents.ToolContext.RequestConfirmation: the runtime stores the request by function-call id among the event's actions. The model keeps only the one request of the current call.
- Endpoints.DecisionOf: how the resumed runtime reads the decision out of the function response belongs to the runtime. This function is the model's inverse of the message `/approve` builds, not code of the system.
- Endpoints.Value: the arguments of the confirmation call are built by the runtime. The model copies them without looking inside.
- Determinism of the refund gate is not a separate lemma: it holds by construction, since `RequestRefund` is a function of its inputs.
