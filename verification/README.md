# savewise-mcp-server, modelled in Dafny

This project models the core of an MCP server that exposes one tool,
`readwise_save_highlights`, and forwards validated highlights to the Readwise
REST API. It covers five pieces of sequential logic:

- **Outbound client** (`Readwise`, readwise.dfy). `toReadwiseHighlight` maps a
  validated highlight to the wire record: falsy optional strings are omitted,
  `location` is kept whenever it is defined, and tags become `highlight_tags`
  only when the list is non-empty. The module also builds the single batched
  POST request and its JSON body, and classifies a non-OK HTTP status as 401,
  429 or generic `ReadwiseError`.
- **Input schema** (`Highlights`, highlight.dfy). The zod schema becomes a
  validator from an untyped JSON value to `Result<seq<Highlight>, ValidationError>`.
  Next to it sits an independent predicate, `ConformsToInput`, that says which
  values the schema admits. The module also defines the record shapes
  exchanged with Readwise.
- **Tool handler** (`Savewise`, savewise.dfy). `handleSavewise` is a total
  function that runs token check → validation → remote call → sum of
  `num_highlights` → error text. It returns the tool result together with the
  remote call it made, if any. The outcome of that call is an input.
- **Bearer gate** (`Auth`, auth.dfy). `bearerAuth` is a Pass/Reject(401)
  decision over the configured secret and the `Authorization` header. It
  includes a model of `split(" ")`.
- **Session registry** (`Sessions`, sessions.dfy). The session map is a value
  threaded through the handlers. The module covers resolve-or-create with a
  fresh-id oracle, the reaper as a loop over the entries, the DELETE handler,
  and the HTTP outcome of one request to the MCP path.

Helper modules: `Wrappers` (Option, Result), `Json` (untyped values) and
`Decimal` (how `${n}` renders an integer, with its inverse parser).

Inputs that the source reads from its environment are parameters here. These
are `READWISE_TOKEN`, `MCP_BEARER_TOKEN`, the clock (`now`), the UUID
generator (`freshId`, any non-empty id that is not yet a key), the `fetch`
response (status, raw body, parsed list) and the outcome of the transport's
`handleRequest`.

Three behaviours of the code worth stating:

- The DELETE handler (src/index.ts:217-219) removes nothing. It only answers
  200 `{status: "session closed"}`. Sessions therefore leave the registry only
  through the reaper (`Sessions.OnlyReaperRemoves`).
- Session age is measured from creation. Reusing a session does not refresh
  it (`Sessions.ReuseDoesNotRefresh`).
- The schema defaults `category` to "articles" before serialisation. So an
  input `{text, title, tags}` is sent with `category` and `highlight_tags`,
  not with the tags alone (`Readwise.ValidatedTagsExample`).

## Model

| member | source | states |
|---|---|---|
| Highlights.RequireString | src/types/highlight.ts:4-13 | `text`/`title` are accepted exactly when present and a string, and are copied; otherwise the field is reported missing or of the wrong type |
| Highlights.OptString | src/types/highlight.ts:14-33 | an optional string field is accepted exactly when absent or a string, and its value is copied |
| Highlights.OptNumber | src/types/highlight.ts:28 | `location` is accepted exactly when absent or a number, and is copied when present |
| Highlights.Strings | src/types/highlight.ts:34 | an array yields its strings, in order and with the same length, exactly when every element is a string |
| Highlights.OptStrings | src/types/highlight.ts:34 | `tags` is accepted exactly when absent or an array of strings, and is then copied element by element |
| Highlights.ValidateHighlight | src/types/highlight.ts:3-35 | an element is accepted exactly when it conforms to the highlight schema; the result then carries every field of the input, with the category defaulted |
| Highlights.ValidateElements | src/types/highlight.ts:39 | the list is accepted exactly when every element conforms; the result has the same length and order, element i decoding input i; an error names a position inside the list |
| Highlights.Validate | src/types/highlight.ts:37-42 | the input is accepted exactly when `highlights` exists, is an array of at least one element and every element conforms; count and order are kept |
| Highlights.CategoryDefault | src/types/highlight.ts:17-21 | a validated category is the supplied one, or "articles" when absent |
| Highlights.MinimalInputAccepted | src/types/highlight.ts:3-42 | one element with only `text` and `title` validates to a highlight with every optional field absent and category "articles" |
| Highlights.TaggedInputAccepted | src/types/highlight.ts:17-34 | one element with `text`, `title` and two tags validates with the tags kept and the category defaulted |
| Highlights.EmptyListRejected | src/types/highlight.ts:40 | an empty `highlights` array is rejected |
| Highlights.MissingTextRejected | src/types/highlight.ts:4-8 | one element without `text` rejects the whole input |
| Readwise.ToWire | src/services/readwise.ts:20-40 | `text` and `title` are copied; each optional string is present in the output iff it is present and non-empty in the input, with the same value; `location` is copied whenever defined, 0 included; `highlight_tags` is present iff tags are present and non-empty, with the same length, order and names |
| Readwise.ToWireThenFromWire | src/services/readwise.ts:20-40 | the wire record loses only falsy optional strings and an empty tag list: reading it back gives the input with exactly those removed |
| Readwise.FromWireThenToWire | src/services/readwise.ts:20-40 | every wire record without empty strings or an empty tag list is the image of some highlight |
| Readwise.WireToJson | src/services/readwise.ts:54 | the JSON object holds exactly the present fields of the wire record, and none of them is `null` |
| Readwise.WireJsonRoundTrip | src/services/readwise.ts:54 | the JSON object of a wire record decodes back to that record |
| Readwise.Records | src/services/readwise.ts:46 | the outbound list is the element-wise mapping of the input list: same length, same order |
| Readwise.BuildRequest | src/services/readwise.ts:46-55 | one POST to the highlights URL with `Authorization: Token <token>` and a JSON content type, whose body is exactly `{ highlights: [...] }`: a single key holding one JSON object per input highlight, in order, each the serialisation of its mapped record (so no null placeholders), and decoding back to the mapped list |
| Readwise.RecordsToJson | src/services/readwise.ts:54 | the array holds one serialised object per record, in order |
| Readwise.Classify | src/services/readwise.ts:57-83 | a 2xx status returns the parsed list unchanged; 401 gives "Invalid Readwise API token", 429 gives "Readwise API rate limit exceeded", any other status s gives "Readwise API error: s"; every error carries the status and the raw body |
| Readwise.CreateHighlights | src/services/readwise.ts:42-84 | the exchange sends exactly the request `BuildRequest` describes, the mapped list with the token; its outcome is exactly `Classify`'s (the same message, status and raw body), so it fails exactly on a non-OK status, carrying that status |
| Readwise.GenericMessageCarriesStatus | src/services/readwise.ts:76-80 | the status of a generic error can be read back from its message |
| Readwise.TagExample | src/services/readwise.ts:35-37 | tags ["t1", "t2"] are sent as `[{name: t1}, {name: t2}]`, and no optional field other than category and tags appears in the JSON |
| Readwise.ValidatedTagsExample | src/types/highlight.ts:17-21 | an input with `text`, `title` and tags only is sent with `category` "articles" as well as its tags |
| Savewise.HandleSavewise | src/tools/savewise.ts:4-73 | every path yields one text item. A missing or empty token gives the token error with no validation or call. A validation failure gives "Validation error: ..." with no call. Otherwise the validated list and token are passed unchanged. Success reports the sum of `num_highlights` with `isError` absent. A classified error gives "Readwise API error (code): message"; any other error gives "Error saving to Readwise: message" |
| Savewise.SumFromIsTotal | src/tools/savewise.ts:39 | the `reduce` left fold over the batches equals the total of `num_highlights` |
| Savewise.TokenMessageNamesVariable | src/tools/savewise.ts:14 | the configuration error mentions READWISE_TOKEN |
| Savewise.TokenCheckFirst | src/tools/savewise.ts:9-21 | without a token the result depends neither on the payload nor on the remote, so an invalid payload still gets the token error |
| Savewise.NoCallNoDependence | src/tools/savewise.ts:7-33 | when no remote call is made, the remote outcome has no influence on the result |
| Savewise.ApiErrorText | src/tools/savewise.ts:50-59 | a classified error from a non-OK response is reported with its status code and message |
| Savewise.UnauthorizedEndToEnd | src/tools/savewise.ts:50-59 | a 401 from the remote is reported as "Readwise API error (401): Invalid Readwise API token" |
| Savewise.TwoSavedExample | tests/tools/savewise.test.ts:76-112 | a batch reporting two saved highlights yields "Successfully saved 2 highlight(s) to Readwise." with `isError` absent |
| Savewise.CountIsRemoteTotal | src/tools/savewise.ts:38-48 | the number in the success text reads back as the remote's total, whatever the input length |
| Decimal.IntToString | src/tools/savewise.ts:45 | `${n}` of an integer is a minus sign for negatives followed by digits, with no leading zero, and 0 is "0" |
| Decimal.IntToStringRoundTrip | src/services/readwise.ts:77 | the rendering of an integer parses back to it |
| Decimal.IntToStringInjective | src/services/readwise.ts:77 | distinct integers render as distinct strings, so distinct statuses and counts are told apart in messages |
| Auth.IndexOfSpace | src/middleware/auth.ts:25 | a position no greater than the length, holding a space when it is inside the string |
| Auth.NoSpaceBefore | src/middleware/auth.ts:25 | no space comes before that position, so it is the first space, or the length when there is none |
| Auth.Split | src/middleware/auth.ts:25 | `split(" ")` yields at least one piece, and the first piece is the text before the first space |
| Auth.SplitPieces | src/middleware/auth.ts:25 | no piece contains a space, and there is a second piece iff the header contains a space |
| Auth.JoinSplit | src/middleware/auth.ts:25 | joining the pieces with single spaces gives the header back |
| Auth.BearerAuth | src/middleware/auth.ts:3-38 | no configured secret passes everything; a missing or empty header gets 401 "Missing Authorization header"; a first piece other than "Bearer" or an absent or empty second piece gets 401 "Invalid Authorization header format"; otherwise the request passes iff piece 1 equals the secret, else 401 "Invalid bearer token" |
| Auth.BearerAuthPassIff | src/middleware/auth.ts:8-37 | a request passes iff no secret is configured, or the secret has no space and the header is "Bearer " + secret followed by the end or a space |
| Auth.ExtraPiecesIgnored | src/middleware/auth.ts:25 | appending a space and anything to a passing header still passes |
| Sessions.NewSession | src/index.ts:164-172 | a new session's transport announces the generated id, its server is connected to that transport, and createdAt is now |
| Sessions.Resolve | src/index.ts:158-177 | a known id reuses its session with the registry unchanged, createdAt included; an absent, empty or unknown id creates a session under the generated id with createdAt now; exactly one key is added and no other entry changes; well-formedness is kept |
| Sessions.Reap | src/index.ts:145-153 | the reaper removes exactly the entries with now - createdAt > 1,800,000 and keeps all others untouched |
| Sessions.ReapPreservesWellFormed | src/index.ts:145-153 | reaping keeps every entry's transport announcing its own key |
| Sessions.ReapIdempotent | src/index.ts:145-153 | a second pass at the same time removes nothing more |
| Sessions.ReapMonotone | src/index.ts:145-153 | a later pass keeps a subset of what an earlier pass keeps |
| Sessions.ReuseDoesNotRefresh | src/index.ts:145-160 | a session reused at any time is still evicted once its creation is more than 30 minutes past |
| Sessions.CreatedSessionLifetime | src/index.ts:145-173 | a session created at t survives a pass at time u iff u <= t + 1,800,000 |
| Sessions.FirstContactsAreIsolated | src/index.ts:158-177 | two requests without a session id get distinct sessions, and a later request citing either id reaches that session |
| Sessions.ResolveKnownIsStable | src/index.ts:158-160 | resolving a known id gives the same session and registry whatever the oracle and the clock say |
| Sessions.FailureReply | src/index.ts:178-183 | a dispatch failure gets a 500 "Internal server error" exactly when no headers were sent yet |
| Sessions.CloseSession | src/index.ts:217-219 | DELETE leaves the registry unchanged and answers 200 "session closed" |
| Sessions.HandleMcp | src/index.ts:156-219 | a request the bearer gate rejects gets its 401 and changes nothing; DELETE answers 200 and changes nothing; POST and GET route through resolve-or-create and report dispatch failures; the registry only grows, by at most one key, and stays well-formed |
| Sessions.GetRoutesLikePost | src/index.ts:187-214 | GET applies the same resolve-or-create rule and failure handling as POST |
| Sessions.OnlyReaperRemoves | src/index.ts:142-219 | no request removes or changes an existing session |

## Left out

- OAuth stub endpoints and metadata (src/index.ts:36-133): static JSON, random UUIDs and URL building with no decision logic.
- Express plumbing, request logging, `/healthz` and `app.listen` (src/index.ts:1-34, 221-225): I/O only.
- The MCP SDK: `McpServer`, the tool registration in src/server.ts, and what `handleRequest` does with the envelope. The transport is an opaque value; the outcome of `handleRequest` is an input. A failure of `server.connect` while a session is being created is not modelled.
- `JSON.stringify`: the request body is the JSON value it serialises; key order and string escaping are not modelled, since the remote parses the text back into the same value.
- `fetch`, `response.text()` and `response.json()`: the response is an input, and a body that fails to parse is not modelled.
- Timer scheduling (`setInterval` every 5 minutes): the reaper is modelled as one pass at a given `now`.
- Concurrency: the check/await/insert sequence of src/index.ts:160-173 is treated as atomic. Concurrent first contacts are not modelled.
- `process.env` and dotenv loading: the tokens are parameters. The console warning when no secret is set is output only.
- UUID randomness: replaced by an oracle that returns a non-empty id that is not yet a key.
- Floating point: JSON numbers, `location` and `num_highlights` are integers. `${n}` is modelled only for integers, not for fractional values or the exponent notation JavaScript uses at 10^21 and beyond.
- Savewise.HandleSavewise: the validation message text after "Validation error: " is this model's own rendering of the first violation. zod reports every violation in its own wording.
- Highlights.Validate: only the first schema violation is reported, in schema order; zod collects them all. Unknown keys are ignored, which matches zod's stripping.
