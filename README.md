# Agent marketplace: registry and execution ledger

A Dafny model of the in-memory core of the agent marketplace service
(`backend/marketplace.py`). Third parties register "agents" (descriptors with
capabilities, pricing, tags and an `auth_type`). Clients list them through a
multi-criteria filter and invoke them. Each invocation is recorded in a
per-agent execution history. Callers are identified by an optional API key.

The model has five modules:

- `Types` (`types.dfy`): the values. These are the registration body, the
  stored agent, the execution record, the principal, an open-ended JSON
  document, and the error kinds `Invalid | NotFound | Forbidden | Unauthorized`.
- `Access` (`access.dfy`): the `auth_type` validator, API-key resolution to a
  principal, and the admin / owner tests the handlers apply.
- `Search` (`search.dfy`): the five listing criteria and `Select`, the
  order-preserving selection that specifies the listing loop. It also holds
  Python's `str.lower()` and `in` on strings.
- `Ledger` (`ledger.dfy`): the pure parts of the execution history. These are
  `.get(agent_id, [])`, the per-principal list comprehension, the first-match
  `next(...)` lookup and the append.
- `Marketplace` (`marketplace.dfy`): the class `Service`. Its fields are the two
  module-level dictionaries: `registry` is the agent map, `order` is its
  insertion order and `executions` is the ledger. A ghost set `issued` holds
  every id handed out so far. Each request handler is a member of the class.
  Handlers that change the dictionaries are methods with `modifies this` whose
  postconditions state the complete new state. Handlers that only read are
  functions, except the listing, which is a method with the source's loop.

Where the model takes the environment as input:

- `uuid4()` becomes a caller-supplied `newId` that is not in `issued`. So ids
  are never reused, and a new agent never inherits history.
- `datetime.utcnow()` becomes timestamp parameters. `execute_agent` reads the
  clock twice, so `Execute` takes both `createdAt` and `completedAt`.
- The simulated result is built from the agent's name. The Python text form of
  the request input is an opaque `renderedInput` parameter.
- The API-key table is the constructor parameter `keys`.

Order of checks:

- In the framework, the `get_current_user` dependency runs before the request
  body is validated. So a mutating handler fails `Unauthorized` first, then
  `Invalid` on a bad `auth_type`, and only then applies its own checks.
- `Update` checks existence before ownership.
- `Delete` checks the admin role before existence.

Execution history after a delete:

- Deleting an agent leaves its history in `executions`.
- Both execution reads (`backend/marketplace.py:255`, `:275`) fail NotFound
  for an id that is not registered now. So once an agent is deleted, its
  history can no longer be reached.
- `Delete`'s postcondition proves this: afterwards every `ListExecutions` and
  every `GetExecution` for that id fails.

Request bodies: every field the source declares as `Dict` (`input_data`,
`execution_parameters`, `auth_details`, `pricing_details`, a capability's
`parameters`) has the type `JsonObject`, JSON restricted to objects. A body
carrying any other JSON value there is refused by validation before the
handler runs, so such a request never reaches the model.

## Model

| member | source | states |
|---|---|---|
| `Access.ValidateAuthType` | backend/marketplace.py:55-59 | `auth_type` is accepted, unchanged, exactly when it is `none`, `api_key` or `oauth`; anything else is a validation error |
| `Access.DefaultAuthTypeValid` | backend/marketplace.py:49 | the default `auth_type` (`none`) passes the validator |
| `Access.ResolvePrincipal` | backend/marketplace.py:82-92 | no key gives the anonymous guest; a key missing from the table fails Unauthorized; a known key gives exactly its table entry |
| `Search.Lower` | backend/marketplace.py:168-170 | lower-casing keeps the length and folds each character independently |
| `Search.LowerIdempotent` | backend/marketplace.py:168-170 | lower-casing an already lower-cased string changes nothing |
| `Search.ContainsIff` | backend/marketplace.py:169-172 | Python's substring test holds exactly when some window of the text equals the query |
| `Search.MissingCharExcludes` | backend/marketplace.py:169-172 | a query holding a character absent from the text is not a substring of it |
| `Search.SelectMembers` | backend/marketplace.py:152-177 | an agent is listed exactly when it is registered and passes all five criteria (conjunction) |
| `Search.SelectConcat` | backend/marketplace.py:154-175 | listing keeps registration order: selection distributes over concatenation |
| `Search.SelectDistinct` | backend/marketplace.py:154-175 | no agent is listed twice |
| `Search.SelectUnconstrained` | backend/marketplace.py:155-173 | criteria that are unset or empty (falsy) impose nothing: every agent is listed, in order |
| `Search.QueryIgnoresCase` | backend/marketplace.py:167-172 | the query criterion gives the same verdict for a query and its lower-cased form |
| `Search.TagFiltersDisjoint` | backend/marketplace.py:158-159 | two tag filters give disjoint results when no agent carries tags from both |
| `Search.SummarizerMatches` | backend/marketplace.py:167-173 | an agent named "Text Summarizer" passes the query "summar" through its name |
| `Search.NoSummarExcluded` | backend/marketplace.py:167-173 | an agent whose name, description and capability texts lack the letter u fails the query "summar" |
| `Search.QueryExample` | backend/marketplace.py:167-177 | the query "summar" lists the summarizer and excludes an "Image Classifier" with no matching text |
| `Ledger.AppendWellFiled` | backend/marketplace.py:228-245 | appending a completed record under its own agent keeps every record filed under its agent, completed, and carrying an issued id |
| `Ledger.OwnedByMembers` | backend/marketplace.py:264 | the comprehension keeps exactly the records whose `user_id` is the caller's |
| `Ledger.OwnedByConcat` | backend/marketplace.py:264 | the comprehension keeps submission order |
| `Ledger.VisibleToSpec` | backend/marketplace.py:263-264 | an admin sees the whole history; anyone else sees exactly the records they submitted |
| `Ledger.VisibleAfterAppend` | backend/marketplace.py:243-245 | a new record joins the end of the listing of every principal allowed to see it, and no other listing changes |
| `Ledger.FindById` | backend/marketplace.py:282 | the lookup yields the first record with the requested id, or nothing exactly when no record has that id |
| `Ledger.FindAppended` | backend/marketplace.py:282 | a record appended with an id no earlier record has is the one the lookup finds |
| `Ledger.FindStable` | backend/marketplace.py:282 | appending never changes what an already-present id finds |
| `Ledger.SimulatedResult` | backend/marketplace.py:237-240 | the simulated result is an object with exactly `message` and `data`, and `data` holds exactly the text `generated_output` |
| `Ledger.SimulatedResultInjective` | backend/marketplace.py:237-240 | two simulated results are equal exactly when they name the same agent and echo the same input |
| `Access.Permissions` | backend/marketplace.py:290-335 | an admin may update every agent and view every record; anyone else may update exactly the agents they registered and view exactly the records they submitted; the keyless guest is never an admin |
| `Marketplace.Without` | backend/marketplace.py:316 | popping a key removes exactly that key from the iteration order and keeps the rest distinct; popping an absent key changes nothing |
| `Marketplace.WithoutSplice` | backend/marketplace.py:316 | popping a key keeps every other key in its place: the keys before it, then the keys after it |
| `Marketplace.ProjectPop` | backend/marketplace.py:316 | removing a key from the map and from the order removes exactly its position from the listing |
| `Marketplace.PopOrder` | backend/marketplace.py:316 | popping a key from a distinct order removes exactly the position it held, both from the order and from the listing |
| `Marketplace.Service.constructor` | backend/marketplace.py:30-31 | the service starts with the given key table, an empty registry and an empty ledger |
| `Marketplace.Service.ListedIsRegistry` | backend/marketplace.py:154 | iteration visits every registered agent once and nothing else |
| `Marketplace.Service.GetAgent` | backend/marketplace.py:200-210 | a registered id yields its agent, whose `id` is that id; any other id fails NotFound |
| `Marketplace.Service.ListAgents` | backend/marketplace.py:148-177 | the loop returns exactly the registered agents that pass every criterion, in registration order, each once, and `count` is their number |
| `Marketplace.Service.ListExecutions` | backend/marketplace.py:250-266 | an unknown key fails Unauthorized; an agent not registered now fails NotFound; otherwise an admin gets the whole history and anyone else exactly their own records, in submission order |
| `Marketplace.Service.GetExecution` | backend/marketplace.py:269-296 | Unauthorized, then NotFound for an unregistered agent or an id with no record; the first record with the id is returned to an admin or its submitter and is Forbidden to anyone else |
| `Marketplace.Service.Register` | backend/marketplace.py:127-145 | under a fresh id, stores every descriptor field unchanged with `id`, `created_by` = caller, `status` = active; appends it to the listing order; a following get returns it; nothing else changes |
| `Marketplace.Service.Update` | backend/marketplace.py:321-345 | NotFound is checked before ownership; only an admin or the registrant may update; every registration field is overwritten; `id`, `created_at`, `created_by` and `status` are kept; `updated_at` is set; keys, order and ledger are unchanged |
| `Marketplace.Service.Delete` | backend/marketplace.py:299-318 | a non-admin gets Forbidden even for an absent id; an admin gets NotFound for an absent id; on success only that key leaves the registry, the other agents keep their listing order, the ledger is untouched, and its history can no longer be read |
| `Marketplace.Service.Pop` | backend/marketplace.py:316 | the key leaves the registry; its position alone leaves the order and the listing, and every other agent keeps its place; the ledger is untouched |
| `Marketplace.Service.Append` | backend/marketplace.py:243-245 | exactly one record is appended at the end of its agent's history, created if absent; other agents' histories are unchanged |
| `Marketplace.Service.Execute` | backend/marketplace.py:213-247 | an unregistered agent fails NotFound; otherwise one completed record with the request's agent id and the caller's user id is appended; the same ids then read it back, and the caller's listing grows by exactly that record |
| `Marketplace.Service.ReadBack` | backend/marketplace.py:264-282 | a record appended with a fresh id is found by its submitter's lookup and closes that submitter's listing |

## Left out

- HTTP routing, status codes, CORS, logging and server start-up
  (`backend/marketplace.py:1-28`, `:357-366`): transport plumbing. Errors are
  the `Error` datatype.
- Parsing the `API_KEYS` environment variable as JSON (`main`,
  `backend/marketplace.py:348-355`): depends on the environment and a JSON
  library. The key table is a constructor parameter.
- `/`, `/health` and `/manifest` (`backend/marketplace.py:95-124`): static or
  environment-derived values with no logic.
- `search_agents` (`backend/marketplace.py:180-197`): unfinished in the source.
  It returns nothing.
- Concurrency between the `async` handlers: operations are modelled as
  sequential calls.
- `uuid4()`, the clock, and the text rendering of the input document: modelled
  as parameters, as described above.
- `Search.Lower`: folds only the ASCII letters A-Z, whereas Python's
  `str.lower()` folds all of Unicode.
- Request-body validation other than `auth_type` (required fields, field
  types, `Dict` fields being objects): the model's types enforce it, so the
  model has no Invalid outcome for these refusals. The execution request's own
  `agent_id` and `auth_credentials` fields are parsed but never used by the
  handler, so they are not modelled.
- Handler responses that wrap the result in a message (`registered`,
  `updated successfully`, `deleted successfully`): `Register`, `Update` and
  `Delete` return the agent itself.
- Floating-point numbers inside JSON documents: `Json` has integers only, and
  the core never interprets these documents.
- The Vue front end, its router and dev-server proxy, and the demo `requests`
  client: they are UI and client code outside the core.
