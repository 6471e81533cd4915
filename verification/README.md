# ChainOrchestra, verified core

A Dafny model of the parts of ChainOrchestra in which the logic is hard to get right, with proofs of
what those parts promise. Each module follows one component; `dafny verify dfyconfig.toml` checks all
of them together.

- **Tool schemas** (`SchemaResolve`, `SchemaSanitize`, `ToolDeclarations`, with `SchemaLaws` and
  `SchemaExamples`): the compiler that turns the JSON Schemas of the tools into declarations for the
  language model. Inlining references is a partial function in the original, which may recurse for
  ever; the model makes the recursion depth explicit and proves for which schemas some depth
  suffices.
- **Comment stripping** (`GoLexer`, `StripComments`, `StripProgram`, `BlankLines`, over `Text`, with
  `LexerLaws` and `StripLaws`): the loop is proved equal to a filter over a lossless lexing.
- **Stock** (`StockLedger`, `StockTransactions`): the stock table with its movement ledger, first as
  single operations, then as row-locked transactions that interleave, commit and roll back.
- **Realtime events** (`EventStream`, with `EventStreamLaws`): the gateway's frame writer and the
  browser's incremental parser, under every way to split the text into reads. The framing is that of
  section 9.2 (Server-sent events) of the WHATWG HTML Standard.
- **Orders and shipments** (`OrderStatus`, `Shipments`, `ShipmentConsumer`, with `OrderStatusLaws`
  and `ShipmentLaws`): compare-and-set order statuses with any number of clients, the life of a
  shipment, and its creation from order events.
- **Guards around the assistant** (`RateLimiter`, `LoopGuard`, `ToolCache`, `ToolLoop`, with
  `RateLimiterLaws`, `ToolCacheLaws` and `ToolLoopLaws`): the gateway's rate limiter, the guard
  against repeated tool calls, the cache of tool results, and the loop between model and tools with
  its execution plan.
- **Statistics** (`Statistics`, `Forecast`, `Anomalies`, with `ForecastLaws` and `AnomalyLaws`):
  forecasts and anomaly detection over exact reals. The square root is a function parameter of which
  only its defining property is assumed.

Code that updates state in place is a class or a loop here, too, proved against a specification
function; the properties are then proved of that function, over all inputs and all runs. The modules
whose names end in `Laws` say what these functions come to in terms of inputs and results alone: when
an operation succeeds, what it changes, and what it answers.

## What does not hold of the code

The model keeps the code as it is. Where a promise fails, there is a lemma that says exactly when it
holds, or, where that is out of reach, one that gives the failing case.

- Two paths of the resolver return siblings as they stand: beside a combiner with a non-null branch, and
  beside a reference that names no definition. On both, references can be left behind
  (`CombinerNormalExactly`, `DanglingNormalExactly`; `CombinerSiblingExample`,
  `DanglingSiblingExample`), and the code recurses for ever when what is left of a definition contains
  a reference back to it, at any depth (`LoopDiverges`; `LoopThroughSiblingDiverges` and
  `LoopThroughDanglingDiverges`, with `LoopingExample` and `DanglingLoopExample`).
- A null branch of a combiner that is itself a reference becomes a plain object, and so a branch to
  collapse, exactly when its key is in progress (`NullBranchesExactly`, `FieldsNormalExactly`). Through
  a definition that refers to itself so, the result can keep a combiner with a non-null branch, though
  every reference names a definition (`NullBranchExample`). `Tame` is a condition under which none of
  this happens; of null branches it asks only that they do not refer to a definition that leads to
  them.
- The `properties` that a declaration gets by default come after `required` was filtered, so a schema
  that requires names, has no properties and does not say that it is an object keeps those names
  (`ParametersCleanExactly`, `DeclarationCleanExactly`, `UnfilteredExample`).
- docs/api-reference.md gives the rate limit as 100 requests a minute. With a limit of L, a closed
  minute lets through up to 2 L - 1, and no more (`AllowedPerInterval`, `RateLimiter.BoundReached`). A limit below
  one still lets one request through per window.
- docs/observability.md says that the call after the third equal one is replaced. The code counts
  the call being made, so the third itself is (`ThirdIsBlocked`).
- The tool cache is cleared by the successful reply of a tool whose name is recognised, and by nothing
  else (`FreshAfterExactly` and `FreshAfterReadExactly` say exactly when it stays current). So a change
  whose reply is lost or is an error leaves it stale (`LostReplyExample`), and so does a scan cut short
  (`CutScanExample`). Six tools of mcp-orchestrator/tools/logistics_tools.py, `shipments_redirect`
  (line 194) among them, change shipments and are not recognised (`UnrecognisedTools`,
  `UnrecognisedLeavesStaleHit`, `StaleExample`). Conversely, the report
  `analytics_quick_cancellations` passes for a mutation: it is never cached, in spite of its own time
  to live, and each of its successful calls empties the cache (`ReportEmptiesCache`).
- A last answer after the rounds ran out may still ask for tools, and nobody answers
  (`PairedExactly`, `UnansweredExample`).
- The third failed attempt does not always end a shipment. HoldForPickup writes a status without
  looking at the old one, and so revives a returned shipment for one more attempt. And an attempt is
  recorded before the status is written, in a write whose failure nobody looks at: a shipment whose
  return is lost takes another attempt (`AttemptsBounded`, `Shipments.BoundReached`, `TerminalLeftExactly`).
- A lookup that fails lets the consumer create a second shipment (`DuplicateExactly`).
- The detector of drops accepts days with a negative number of orders, which nothing in the repository
  writes: it leaves them out of the sums for the average order value but not out of the report, so
  that the bound on reports would fail with them (`DropReportsBounded`, `NegativeDayBreaksBound`).
- The backtest of an exactly linear series is zero unless a value held back is negative, because
  forecasts are cut off at zero (`BacktestOnLineExactly`).

## Model

| member | source | states |
|---|---|---|
| `SchemaResolve.ResolveTerminates` | mcp-host/llm.py:292-326 | for every tame schema over tame definitions, mutually recursive ones included, resolution ends, and no string reference and no combiner with a non-null branch is left anywhere |
| `SchemaResolve.ResolveIdempotent` | mcp-host/llm.py:292-326 | resolving the result again, against any definitions and with any keys in progress, changes nothing |
| `SchemaResolve.ReferenceField` | mcp-host/llm.py:295-306 | field by field, a reference is its resolved target under its resolved siblings, and the siblings win |
| `SchemaResolve.NormalIsFixed` | mcp-host/llm.py:292-326 | a schema in normal form is returned as it is |
| `SchemaResolve.CutTerminates` | mcp-host/llm.py:295-307 | a key in progress becomes a plain object and a dangling reference its siblings |
| `SchemaResolve.CombinerNormalExactly` | mcp-host/llm.py:309-319 | a combiner with a non-null branch comes out in normal form if and only if its siblings were in it |
| `SchemaResolve.DanglingNormalExactly` | mcp-host/llm.py:307 | a dangling reference comes out in normal form if and only if its siblings were in it |
| `SchemaResolve.LoopDiverges` | mcp-host/llm.py:295-324 | a reference that occurs, at any depth, in the resolution of its own definition is resolved at no recursion depth |
| `SchemaResolve.LoopThroughSiblingDiverges` | mcp-host/llm.py:295-319 | so is one to a definition that refers to itself from beside its combiner |
| `SchemaResolve.LoopThroughDanglingDiverges` | mcp-host/llm.py:295-307 | and one to a definition that refers to itself from beside a dangling reference |
| `SchemaResolve.LoopingExample` | mcp-host/llm.py:295-319 | such a definition: an anyOf beside a property that refers back |
| `SchemaResolve.DanglingLoopExample` | mcp-host/llm.py:295-307 | the other kind: a dangling reference beside a property that refers back |
| `SchemaResolve.FieldsNormalExactly` | mcp-host/llm.py:309-321 | a dict without reference and non-null branch, whose fields come out in normal form, does so itself if and only if no null branch refers to a key in progress |
| `SchemaResolve.NullBranchesExactly` | mcp-host/llm.py:298-299 | branches that are all null types keep only null types if and only if none is a reference whose key is in progress |
| `SchemaExamples.NullBranchExample` | mcp-host/llm.py:292-326 | closed definitions without any non-null branch whose result keeps one |
| `SchemaExamples.CombinerSiblingExample` | mcp-host/llm.py:309-319 | a reference left behind beside a combiner |
| `SchemaExamples.DanglingSiblingExample` | mcp-host/llm.py:307 | a reference left behind beside a dangling one |
| `SchemaResolve.ResolveIsValue` | mcp-host/llm.py:292-326 | every recursion depth that suffices gives the same answer |
| `SchemaLaws.ChosenIs` | mcp-host/llm.py:309-315 | anyOf comes before oneOf, and of either the first branch counts that is not the null type; nothing is chosen exactly when there is none |
| `SchemaLaws.CombinerField` | mcp-host/llm.py:309-319 | field by field, a combiner is its chosen branch resolved under its untouched siblings, and the combiner keys are gone |
| `SchemaLaws.ReferenceCut` | mcp-host/llm.py:295-307 | a key in progress gives a plain object, and a reference to a missing definition, or to a null one, its siblings as they are |
| `SchemaLaws.KeyAfterSlash` | mcp-host/llm.py:297 | the key of a reference is what follows its last slash |
| `SchemaSanitize.SanitizeSchema` | mcp-host/llm.py:328-366 | the recursive procedure computes the specification |
| `SchemaSanitize.FillCleaned` | mcp-host/llm.py:331-341 | the loop over the keys keeps the allowed ones, or all of a property map, each with its value sanitized |
| `SchemaSanitize.PatchSchema` | mcp-host/llm.py:343-359 | the four patches in their order |
| `SchemaSanitize.ValidNames` | mcp-host/llm.py:351-352 | the required names that are properties, in order |
| `SchemaSanitize.SanitizeIsClean` | mcp-host/llm.py:328-366 | at every schema position: only allowed keys, arrays with items, objects with properties, no null default, and a required list that is non-empty and names properties |
| `SchemaSanitize.SanitizeFixedExactly` | mcp-host/llm.py:328-366 | the schemas left alone are exactly those that satisfy these promises |
| `SchemaSanitize.SanitizeIdempotent` | mcp-host/llm.py:328-366 | sanitizing twice is sanitizing once |
| `SchemaSanitize.FinishFixedExactly` | mcp-host/llm.py:343-359 | the patches change nothing exactly when there is nothing to patch |
| `SchemaSanitize.PropertyNamesKept` | mcp-host/llm.py:333-341 | a property map keeps every name, also one that is no schema key |
| `SchemaLaws.FieldKept` | mcp-host/llm.py:271-290 | of each of the eighteen schema keys and of every other key: what becomes of it, with the default items and properties and the null default |
| `SchemaLaws.RequiredKept` | mcp-host/llm.py:350-356 | required names are left alone without a dict of properties, and otherwise those remain that are properties; an empty list goes |
| `SchemaLaws.NamesSnoc` | mcp-host/llm.py:351-352 | they remain in order, each as often as it was there |
| `SchemaLaws.ItemsKept` | mcp-host/llm.py:363-366 | a list keeps every item, sanitized, and a scalar stays as it is |
| `SchemaSanitize.ParametersCleanExactly` | mcp-host/llm.py:379-384 | a declaration keeps the promises if and only if the schema has properties, is an object or has no required list |
| `SchemaLaws.ParametersAre` | mcp-host/llm.py:380-384 | the sanitized schema with the type object and no properties where it has none of its own |
| `SchemaSanitize.UnfilteredExample` | mcp-host/llm.py:379-384 | a schema whose declaration requires a name that is no property |
| `ToolDeclarations.SanitizeKeepsNormal` | mcp-host/llm.py:328-366 | sanitizing brings back no reference and no non-null branch |
| `SchemaLaws.DefinitionsAre` | mcp-host/llm.py:372-377 | definitions come from $defs, then from definitions, and there are none if what is found is not a dict |
| `ToolDeclarations.DeclarationIsSound` | mcp-host/llm.py:368-384 | from end to end, for tame schemas: compiling ends, no reference and no non-null branch is left, and the sanitizer's promises hold if and only if the resolved schema has properties, is an object or requires none |
| `ToolDeclarations.TopFieldIs` | mcp-host/llm.py:292-326 | a key of the resolved dict is found beside the reference or combiner, else in the definition, else in the chosen branch |
| `ToolDeclarations.DeclarationCleanExactly` | mcp-host/llm.py:368-384 | the end-to-end result with its condition on the schema as given: properties, the type of an object, or no required list is found there |
| `ToolDeclarations.PlainDeclarationClean` | mcp-host/llm.py:368-384 | for a schema without reference or combiner at its top that is its own fields |
| `StripProgram.StripGoLike` | scripts/strip-comments.py:40-117 | the character loop computes the filter over the lexing |
| `StripProgram.LineCommentEnd` | scripts/strip-comments.py:72-74 | the scan finds the end of a line comment |
| `StripProgram.BlockCommentEnd` | scripts/strip-comments.py:96-99 | the scan finds the end of a block comment, closed or not |
| `StripProgram.FindLineStart` | scripts/strip-comments.py:77-79 | the scan back over the buffer finds the start of its last line |
| `StripProgram.PopLine` | scripts/strip-comments.py:87-89 | the pops remove exactly the last line |
| `GoLexer.LexLossless` | scripts/strip-comments.py:48-115 | code characters, literals, line and block comments join up to the input |
| `StripComments.StripLexes` | scripts/strip-comments.py:40-117 | the output lexes to exactly the tokens kept: removal joins nothing into a new comment opener |
| `StripComments.StripIdempotent` | scripts/strip-comments.py:40-117 | stripping twice is stripping once, whatever counts as a directive |
| `StripComments.StripKeepsCode` | scripts/strip-comments.py:48-117 | literals and non-blank code survive verbatim and in order, nothing is added, and the comments left are directives where they now stand |
| `StripComments.StripFixedExactly` | scripts/strip-comments.py:40-117 | the texts left alone are exactly those whose comments are all directives |
| `StripLaws.DirectivesFixedExactly` | scripts/strip-comments.py:70-93 | the texts left alone are exactly those without block comments in which the pattern accepts every line comment with what stands before it on its line |
| `StripLaws.FirstCommentGoes` | scripts/strip-comments.py:70-112 | the first comment that is no directive goes, with its whole line if that holds nothing else, and the rest of the text is treated as if it had not been there |
| `StripLaws.AllLineCommentsSurvive` | scripts/strip-comments.py:82-85 | if the pattern accepts everything, every line comment survives, in order |
| `LexerLaws.ReadsLiteral` | scripts/strip-comments.py:51-68 | a literal goes from any of the three quotes to the next of its kind that no backslash shields, which in raw literals none does |
| `LexerLaws.ReadsLine` | scripts/strip-comments.py:70-75 | a line comment ends before the newline or with the text |
| `LexerLaws.ReadsBlock` | scripts/strip-comments.py:95-99 | a block comment ends with the first end after its opening or with the text |
| `StripComments.DropLineIsPop` | scripts/strip-comments.py:87-89 | popping a blank line prefix off the buffer drops only blank code characters |
| `BlankLines.CollapseBlankLines` | scripts/strip-comments.py:119-136 | the loop computes the specification |
| `BlankLines.CollapseFixedExactly` | scripts/strip-comments.py:119-136 | the texts left alone are exactly those with stripped lines, no two blank ones in a row, and one final newline |
| `BlankLines.CollapseIdempotent` | scripts/strip-comments.py:119-136 | collapsing twice is collapsing once |
| `BlankLines.CollapseKeepsContent` | scripts/strip-comments.py:119-136 | every line that is not blank survives in order, less its trailing white space |
| `BlankLines.TwoBlanksAreOne` | scripts/strip-comments.py:122-128 | two blank lines in a row come to one |
| `BlankLines.LinesAreStripped` | scripts/strip-comments.py:123-124 | white space at the end of a line makes no difference |
| `BlankLines.LastBlankGoes` | scripts/strip-comments.py:132-136 | blank lines at the end go |
| `StockLedger.StockStorage.ReserveStock` | services/inventory-service/internal/stock/storage.go:115-160 | checks, update, movement and commit come to the specification, with each error |
| `StockLedger.StockStorage.ReleaseStock` | services/inventory-service/internal/stock/storage.go:162-210 | the same for a release |
| `StockLedger.StockStorage.AdjustStock` | services/inventory-service/internal/stock/storage.go:212-266 | the same for inbound, outbound and adjustment |
| `StockLedger.StockStorage.UpdateMinThreshold` | services/inventory-service/internal/stock/storage.go:430-444 | the threshold alone changes |
| `StockLedger.StockStorage.GetOrCreateStock` | services/inventory-service/internal/stock/storage.go:84-113 | an existing row, or a new empty one |
| `StockLedger.StockStorage.UpdateAndRecord` | services/inventory-service/internal/stock/storage.go:138-160 | update and movement both happen or neither does |
| `StockLedger.ReserveExactly` | services/inventory-service/internal/stock/storage.go:115-160 | a reservation succeeds if and only if it does not exceed quantity less reserved; each error, and the row and movement of success |
| `StockLedger.ReleaseExactly` | services/inventory-service/internal/stock/storage.go:162-210 | a release succeeds if and only if it does not exceed the reserved amount |
| `StockLedger.OutboundExactly` | services/inventory-service/internal/stock/storage.go:212-266 | an outbound movement succeeds if and only if it does not exceed quantity less reserved |
| `StockLedger.InboundExactly` | services/inventory-service/internal/stock/storage.go:212-266 | inbound movements and adjustments succeed if and only if the new quantity fits INT |
| `StockLedger.OthersExactly` | services/inventory-service/internal/stock/storage.go:430-444 | a threshold is set if and only if the row is there and the number fits INT; asking for a row never fails |
| `StockLedger.ExecuteKeepsBooks` | services/inventory-service/internal/stock/storage.go:115-266 | every operation keeps 0 <= reserved <= quantity and, for each row, what it held before its first movement |
| `StockLedger.ExecuteFrame` | services/inventory-service/internal/stock/storage.go:115-266 | failure changes nothing; success changes one row, its threshold excepted, and appends one movement |
| `StockLedger.ReleaseUndoesReserve` | services/inventory-service/internal/stock/storage.go:115-210 | a release gives back what a reservation took |
| `StockTransactions.Serializable` | services/inventory-service/internal/stock/storage.go:115-266 | however transactions interleave and roll back, the committed state is that of the committed operations run alone in commit order, where each succeeds |
| `StockTransactions.CommitIsExecute` | services/inventory-service/internal/stock/storage.go:120-157 | what a commit publishes is what the operation does alone on the state just before |
| `StockTransactions.RunKeepsInv` | services/inventory-service/internal/stock/storage.go:120-157 | in every reachable state a transaction past its lock has read the row that is in the table |
| `StockTransactions.BooksBalance` | services/inventory-service/internal/stock/storage.go:115-266 | in every reachable committed state quantity and reserved are the initial ones plus and minus the row's movements, and 0 <= reserved <= quantity |
| `StockTransactions.ConstraintNeverRejects` | services/inventory-service/cmd/migrate.go:97 | the constraint never rejects an update that passed the code's checks; only the range of INT can |
| `StockTransactions.CanCommit` | services/inventory-service/internal/stock/storage.go:115-160 | in every reachable state an operation whose row is not locked runs to its commit if it would succeed alone, and then does just that |
| `StockTransactions.OthersDoNotBlock` | services/inventory-service/internal/stock/storage.go:120-157 | no step of one transaction takes a step from another, except by locking the row that the other was about to lock |
| `StockTransactions.CanRollBack` | services/inventory-service/internal/stock/storage.go:120-124 | a rollback is possible at any point, changes nothing and frees the row |
| `EventStream.ResponseStream.WriteSSE` | services/api-gateway/internal/realtime/hub.go:238-245 | the text gains exactly one event frame |
| `EventStream.ResponseStream.WriteKeepAlive` | services/api-gateway/internal/realtime/hub.go:225-227 | the text gains exactly one comment frame |
| `EventStream.StreamClient.Read` | frontend/src/lib/use-realtime-stream.ts:83-91 | one read emits what the complete chunks parse to and keeps the rest |
| `EventStream.StreamClient.ReadAll` | frontend/src/lib/use-realtime-stream.ts:81-92 | a connection's reads, one after the other |
| `EventStream.StreamClient.HandleChunk` | frontend/src/lib/use-realtime-stream.ts:104-119 | a chunk emits the event its data parses to, with the type of the frame if it has none, and nothing without data or if parsing throws |
| `EventStream.ParseAppend` | frontend/src/lib/use-realtime-stream.ts:85-91 | parsing a text and then some more is parsing it all at once |
| `EventStream.ReadsAreParse` | frontend/src/lib/use-realtime-stream.ts:81-92 | for every text the split into reads does not matter |
| `EventStream.RoundTrip` | frontend/src/lib/use-realtime-stream.ts:81-119 | whatever was written arrives, in order and less outer white space, and the buffer is empty |
| `EventStream.RoundTripExactly` | frontend/src/lib/use-realtime-stream.ts:81-119 | types and payloads without outer white space arrive exactly as sent, for any events, keepalives and reads |
| `EventStream.ReadsExactly` | frontend/src/lib/use-realtime-stream.ts:81-119 | the same at every moment: the events of the complete frames, and the unfinished frame in the buffer |
| `EventStream.DeliversExactly` | services/api-gateway/internal/realtime/hub.go:225-245 | if what is encoded is parsed back, the page gets exactly the events the gateway sent |
| `EventStream.BufferIsUnfinishedFrame` | frontend/src/lib/use-realtime-stream.ts:81-92 | at every moment before, the events of the complete frames have been emitted and the buffer is the unfinished frame |
| `EventStream.PrefixIsCutFrame` | services/api-gateway/internal/realtime/hub.go:225-245 | every prefix of what is written is complete frames and a cut one |
| `EventStream.SentIsEvents` | frontend/src/lib/use-realtime-stream.ts:108-112 | trimming changes no type or payload without outer white space |
| `EventStreamLaws.FrameText` | services/api-gateway/internal/realtime/hub.go:226-244 | a frame is the type and the document, each on a line of its own, and a blank line; a keepalive is a comment |
| `EventStreamLaws.LineByLine` | frontend/src/lib/use-realtime-stream.ts:104-111 | in a chunk of any lines, a later type replaces an earlier one, data is joined without a line break, and all other lines are ignored |
| `EventStreamLaws.MessageExactly` | frontend/src/lib/use-realtime-stream.ts:112 | a chunk without data says nothing |
| `EventStreamLaws.EmissionExactly` | frontend/src/lib/use-realtime-stream.ts:113-118 | a payload that does not parse is dropped, and an event without a type gets that of its frame |
| `EventStreamLaws.TrimExactly` | frontend/src/lib/use-realtime-stream.ts:109-110 | trimming takes all white space off both ends and nothing else |
| `OrderStatus.OrderService.Handle` | services/order-service/internal/controller/service.go:108-168 | without interference a handler refuses and changes nothing, or moves the order along the table and publishes the move |
| `OrderStatus.OrderService.CompareAndSetStatus` | services/order-service/internal/order/order.go:186-187 | the status is set only if it is the expected one |
| `OrderStatus.RunKeepsInv` | services/order-service/internal/controller/service.go:108-168 | what every interleaving of reads, compare-and-sets and publications keeps |
| `OrderStatus.HistoryIsPath` | services/order-service/internal/order/order.go:24-43 | with any number of clients every order's statuses are a path of the table, despite its cycle |
| `OrderStatus.TerminalExactly` | services/order-service/internal/order/order.go:24-30 | exactly completed, cancelled and returned have no way out |
| `OrderStatus.TerminalIsLast` | services/order-service/internal/order/order.go:24-43 | no status ever follows one of them |
| `OrderStatus.CancelledAtMostOnce` | services/order-service/internal/controller/service.go:139-168 | order.cancelled is published at most once per order, and only if it is cancelled |
| `OrderStatusLaws.TransitionsByTarget` | services/order-service/internal/order/order.go:24-43 | the table read backwards: from where each status can be entered |
| `OrderStatusLaws.PublishedHappened` | services/order-service/internal/controller/service.go:108-168 | whatever is published in a run happened: the order had the two statuses one right after the other, along the table |
| `OrderStatusLaws.CanCarryOut` | services/order-service/internal/controller/service.go:108-168 | in every reachable state a request for a move along the table can be carried out, and then it moves the order and publishes the move |
| `OrderStatusLaws.StaleChangesNothing` | services/order-service/internal/controller/service.go:108-168 | a client that read a status which has changed since sets and publishes nothing |
| `Shipments.ShipmentService.UpdateShipmentStatus` | services/logistics-service/internal/controller/service.go:135-148 | only transitions of the table |
| `Shipments.ShipmentService.RedirectShipment` | services/logistics-service/internal/controller/service.go:313-338 | refused for bad addresses first, then for finished shipments; else the merged address and its flat form are stored |
| `Shipments.ShipmentService.MergeAddress` | services/logistics-service/internal/shipment/storage.go:630-662 | what the patch leaves empty stays as it was |
| `Shipments.ShipmentService.Hold` | services/logistics-service/internal/controller/service.go:340-344 | any existing shipment becomes held |
| `Shipments.ShipmentService.SetStatus` | services/logistics-service/internal/shipment/storage.go:182-198 | sets the status, and the time of delivery with delivered |
| `Shipments.ShipmentService.RecordDeliveryAttempt` | services/logistics-service/internal/controller/service.go:363-398 | numbers the attempt and counts it, and then sends the shipment back at the third if that write works, which it does not look at |
| `Shipments.ShipmentService.ConfirmDelivery` | services/logistics-service/internal/shipment/storage.go:357-384 | refused for finished shipments, with an error of its own for delivered ones; else time, signature and photo are stored |
| `Shipments.ShipmentService.MaxAttempt` | services/logistics-service/internal/shipment/storage.go:406-413 | the next attempt number is one more than the largest |
| `Shipments.AttemptsNumbered` | services/logistics-service/internal/shipment/storage.go:394-442 | in every run a delivered shipment has its time of delivery and attempts are numbered 1 to n, n being the counter |
| `Shipments.AttemptsBounded` | services/logistics-service/internal/controller/service.go:340-398 | never more than three attempts, one more for each hold, and one more for each third or later attempt whose status write was lost |
| `Shipments.BoundReached` | services/logistics-service/internal/controller/service.go:340-398 | that bound is reached for every number of holds and lost writes |
| `Shipments.LosingLeavesOpen` | services/logistics-service/internal/controller/service.go:388-398 | without any hold, lost writes alone leave a shipment open after any number of attempts |
| `Shipments.TerminalLeftExactly` | services/logistics-service/internal/controller/service.go:135-432 | exactly how a finished shipment changes status: by a hold, or from delivered to returned |
| `Shipments.TerminalAbsorbing` | services/logistics-service/internal/controller/service.go:135-432 | without holds a finished shipment stays as it is, but for delivered, which can become returned |
| `ShipmentLaws.TransitionsByTarget` | services/logistics-service/internal/shipment/shipment.go:31-57 | the table read backwards: from where each status can be entered |
| `ShipmentLaws.OthersUntouched` | services/logistics-service/internal/controller/service.go:135-432 | no operation touches another shipment or makes one, and one that fails changes nothing |
| `ShipmentLaws.UpdateExactly` | services/logistics-service/internal/controller/service.go:135-148 | an update succeeds exactly along the table, and dates a delivery |
| `ShipmentLaws.HoldExactly` | services/logistics-service/internal/controller/service.go:340-344 | a hold succeeds in every status |
| `ShipmentLaws.AttemptExactly` | services/logistics-service/internal/controller/service.go:363-398 | an attempt is refused exactly in the final statuses; what it changes, and the return from the third on |
| `ShipmentLaws.DeliveryExactly` | services/logistics-service/internal/shipment/storage.go:357-384 | a delivery is confirmed exactly in the statuses that are not final, and what it stores |
| `ShipmentLaws.RedirectExactly` | services/logistics-service/internal/controller/service.go:313-338 | what a redirect needs, in what order that is checked, and what it changes |
| `ShipmentLaws.MergedIsPatched` | services/logistics-service/internal/shipment/storage.go:630-662 | of each of the ten fields: the new one if it is given and the old one otherwise, and nothing else |
| `ShipmentLaws.PatchesCompose` | services/logistics-service/internal/shipment/storage.go:630-662 | an empty patch changes nothing and two patches come to one in which the later wins |
| `ShipmentConsumer.Consumer.HandleOrderStatusChanged` | services/logistics-service/internal/consumer/consumer.go:54-91 | lookup before creation, which a failed lookup does not stop |
| `ShipmentConsumer.Consumer.FindByOrderID` | services/logistics-service/internal/shipment/storage.go:99-115 | the order's shipments, sixteen at most |
| `ShipmentConsumer.OneShipmentPerOrder` | services/logistics-service/internal/consumer/consumer.go:54-91 | with lookups that work, from any table and however often an order is confirmed: an order with shipments keeps exactly those, and one without gets one if and only if some confirmation met a creation that works |
| `ShipmentConsumer.ExtraShipmentsAreBlind` | services/logistics-service/internal/consumer/consumer.go:60-71 | from any table, every shipment beyond the first is owed to a failed lookup |
| `ShipmentConsumer.DuplicateExactly` | services/logistics-service/internal/consumer/consumer.go:60-71 | a confirmed order with a shipment gets another if and only if the lookup fails and creation works |
| `RateLimiter.Limiter.Allow` | services/api-gateway/internal/ratelimit/ratelimit.go:47-60 | opens a window or counts within one |
| `RateLimiter.Limiter.Cleanup` | services/api-gateway/internal/ratelimit/ratelimit.go:66-75 | the loop removes exactly the expired entries |
| `RateLimiter.CleanupInvisible` | services/api-gateway/internal/ratelimit/ratelimit.go:47-76 | cleanups anywhere in a run change no answer, past or next |
| `RateLimiter.AllowedPerInterval` | services/api-gateway/internal/ratelimit/ratelimit.go:47-76 | in every run a closed interval as long as the window holds at most 2 max(limit, 1) - 1 allowed requests per address |
| `RateLimiter.BoundReached` | services/api-gateway/internal/ratelimit/ratelimit.go:47-60 | for every limit and window some run reaches that number |
| `RateLimiterLaws.AddressesIndependent` | services/api-gateway/internal/ratelimit/ratelimit.go:47-60 | what other addresses do makes no difference to an address |
| `RateLimiterLaws.RefusedOnlyWhenFull` | services/api-gateway/internal/ratelimit/ratelimit.go:47-76 | a request is refused only if max(limit, 1) requests of its address were let through within one window up to it |
| `LoopGuard.Guard.Check` | mcp-host/loop_guard.py:43-62 | the answer counts the signature in the list that includes this call |
| `LoopGuard.Guard.Record` | mcp-host/loop_guard.py:72-78 | the list gains the signature and keeps its last eight |
| `LoopGuard.Guard.Reset` | mcp-host/loop_guard.py:64-70 | the session's list is gone, the others stay |
| `LoopGuard.ListIsRecent` | mcp-host/loop_guard.py:72-78 | in every run a session's list is the last eight signatures it checked since its own reset |
| `LoopGuard.BlockedExactly` | mcp-host/loop_guard.py:46-49 | a call is blocked if and only if two of the seven calls before it in the session had its signature |
| `LoopGuard.AtMostTwiceInEight` | mcp-host/loop_guard.py:43-62 | any eight consecutive checks let a signature through at most twice |
| `LoopGuard.ThirdIsBlocked` | mcp-host/loop_guard.py:43-62 | in a fresh session two equal calls pass and the third does not |
| `ToolCache.MCPClient.CallTool` | mcp-host/mcp_client.py:181-255 | cache, retries, store, invalidation and counters come to the specification, in each state of the connection |
| `ToolCache.MCPClient.CacheGet` | mcp-host/mcp_client.py:257-265 | a failing read and a stored null are misses |
| `ToolCache.MCPClient.CacheSet` | mcp-host/mcp_client.py:267-278 | nothing is stored for a tool without time to live |
| `ToolCache.MCPClient.CacheInvalidateAll` | mcp-host/mcp_client.py:280-294 | the scan removes exactly the cached calls it visits |
| `ToolCache.EndsAt` | mcp-host/mcp_client.py:212-255 | how the retry loop ends: at the first reply or fatal failure, or after all attempts |
| `ToolCache.RunKeepsFresh` | mcp-host/mcp_client.py:194-255 | in every run in which only successful calls to recognised mutations change the server, whichever of their attempts took effect, and their scans cover the cache, each entry is what the server would answer now |
| `ToolCache.HitsAreCurrent` | mcp-host/mcp_client.py:194-237 | so a cacheable call is answered, from the cache or not, with what the server would answer at that moment |
| `ToolCache.CountersAddUp` | mcp-host/mcp_client.py:196-202 | every cacheable call is one hit or one miss |
| `ToolCacheLaws.HitsExactly` | mcp-host/mcp_client.py:196-202 | hits count the cacheable calls for which the store had an answer and misses the others |
| `ToolCacheLaws.HitAnswers` | mcp-host/mcp_client.py:196-201 | a hit answers what is stored and changes nothing but its counter |
| `ToolCacheLaws.MissAnswers` | mcp-host/mcp_client.py:202-255 | otherwise: the answer by the first reply, fatal failure or end of the attempts, and what each does to the store |
| `ToolCacheLaws.ForeignUntouched` | mcp-host/mcp_client.py:257-294 | no call touches a key of another part of the host |
| `ToolCacheLaws.CacheableExactly` | mcp-host/mcp_client.py:100-103 | cached is what begins with one of the prefixes, whatever follows, and is no mutation |
| `ToolCacheLaws.MutationsExactly` | mcp-host/mcp_client.py:105-106 | a mutation is a name with one of the hints anywhere in it |
| `ToolCacheLaws.LivesAWhile` | mcp-host/mcp_client.py:84-109 | every cached tool has a time to live of fifteen seconds to a minute: the one with none has no cached prefix |
| `ToolCache.FreshAfterExactly` | mcp-host/mcp_client.py:212-255 | after any call to a tool that is not cached, however it ends, the cache is current if and only if every entry is removed by the scan of a successful recognised mutation or is unchanged on the server |
| `ToolCache.FreshAfterReadExactly` | mcp-host/mcp_client.py:194-237 | after a cacheable call that is no hit it is current if and only if the answer stored and every other entry are |
| `ToolCache.LostReplyExample` | mcp-host/mcp_client.py:239-255 | an update takes effect and times out: the old city is answered though a scan would have found it |
| `ToolCache.CutScanExample` | mcp-host/mcp_client.py:280-294 | an update succeeds and its scan fails: the old city is answered |
| `ToolCache.ReportEmptiesCache` | mcp-host/mcp_client.py:79-106 | the report on quick cancellations is taken for a mutation, is not cached, and empties the cache |
| `ToolCache.UnrecognisedTools` | mcp-host/mcp_client.py:60-106 | six tools that change shipments are neither recognised as mutations nor cached |
| `ToolCache.UnrecognisedLeavesStaleHit` | mcp-host/mcp_client.py:194-237 | so a shipment read before such a call that changes it is served unchanged after it |
| `ToolCache.StaleExample` | mcp-host/mcp_client.py:194-237 | from a fresh cache, a redirect and the same read: the old city is answered |
| `ToolLoop.ExecutionPlan.AddStep` | mcp-host/models.py:47-51 | the plan gains a pending step, its last |
| `ToolLoop.ExecutionPlan.CompleteStep` | mcp-host/models.py:58-64 | the step is a success with that result |
| `ToolLoop.ExecutionPlan.FailStep` | mcp-host/models.py:66-72 | the step is a failure with that error |
| `ToolLoop.ExecutionPlan.Finalize` | mcp-host/models.py:74-87 | the plan's status follows from the statuses of its steps |
| `ToolLoop.FinalStatusExactly` | mcp-host/models.py:77-87 | completed if no step failed, failed if all did, partial failure otherwise, for steps of any status |
| `ToolLoop.ExecuteCall` | mcp-host/llm.py:656-747 | one call on each of its four paths: the response and the step recorded |
| `ToolLoop.RunRound` | mcp-host/llm.py:571-754 | one round: what it adds to history and plan, and whether the loop ends with it |
| `ToolLoop.RunToolLoop` | mcp-host/llm.py:551-770 | the whole loop: answer, history and plan |
| `ToolLoop.PairedExactly` | mcp-host/llm.py:568-770 | each added turn with k calls is followed at once by a user turn with k responses naming the same tools in order, if and only if the rounds did not run out on a last answer with calls |
| `ToolLoop.UnansweredExample` | mcp-host/llm.py:756-766 | for every number of rounds, a model that goes on calling ends unanswered |
| `ToolLoop.PlanMirrorsConversation` | mcp-host/llm.py:656-754 | the steps are the calls in order, each ended as the model was told, and nothing is recorded for calls of a last answer |
| `ToolLoop.PlanEndsAsToldExactly` | mcp-host/models.py:74-87 | a plan ends as completed, failed or partial failure exactly by which of success and error the model was told |
| `ToolLoopLaws.CallIsHandled` | mcp-host/llm.py:670-747 | a call is refused if and only if there is a role that does not allow its tool; otherwise the notice of the loop guard, or the result, is passed on, and the step fails or succeeds with it |
| `ToolLoopLaws.EveryCallIsHandled` | mcp-host/llm.py:656-754 | so is every call of every round with calls, in the turn that answers it and in its step of the plan |
| `ToolLoopLaws.RoundsExactly` | mcp-host/llm.py:568-654 | the rounds with calls are those before the first one with an exhausted budget or without a call |
| `ToolLoopLaws.EndExactly` | mcp-host/llm.py:571-770 | what is added and shown after them in each of the four ways to end |
| `ToolLoopLaws.CallsAre` | mcp-host/llm.py:637-640 | the calls of a turn are its parts that are calls, in order |
| `ToolLoopLaws.TextOfTurn` | mcp-host/llm.py:772-780 | what is shown of a turn is its non-empty texts with line breaks between them, or the text for none |
| `Statistics.VarianceIsSpread` | services/analytics-service/internal/controller/service.go:938-943 | mean of squares less square of mean is the mean square distance to the mean, so never negative |
| `Forecast.StdDev` | services/analytics-service/internal/controller/service.go:928-944 | the loop computes the standard deviation, zero for fewer than two numbers |
| `Forecast.AddUp` | services/analytics-service/internal/controller/service.go:805-812 | the four sums |
| `Forecast.Solve` | services/analytics-service/internal/controller/service.go:813-818 | slope and intercept, with the branch for a zero denominator |
| `Forecast.ForecastLinear` | services/analytics-service/internal/controller/service.go:799-847 | the loops compute the specification |
| `Forecast.DenomClosed` | services/analytics-service/internal/controller/service.go:813 | the denominator is n^2 (n^2 - 1) / 12 and positive from two points on |
| `Forecast.NormalEquations` | services/analytics-service/internal/controller/service.go:815-824 | residuals add up to zero, also weighted by position |
| `Forecast.ErrorDecomposes` | services/analytics-service/internal/controller/service.go:815-824 | the squared error of any line is that of the fitted one plus the squares of their distances |
| `Forecast.BestFitExactly` | services/analytics-service/internal/controller/service.go:815-824 | the fitted line has the least squared error and is the only line that has it |
| `Forecast.SpreadIsRootMeanSquare` | services/analytics-service/internal/controller/service.go:820-825 | the deviation of the residuals is the root of their mean square |
| `Forecast.LinearForecastBand` | services/analytics-service/internal/controller/service.go:825-845 | every point lies on the best line, cut at zero, within 1.5 root mean squares |
| `Forecast.SmoothAll` | services/analytics-service/internal/controller/service.go:895-904 | the loop keeps level and trend and collects one-step residuals |
| `Forecast.ForecastEts` | services/analytics-service/internal/controller/service.go:889-926 | the loops compute the specification |
| `Forecast.LevelOnly` | services/analytics-service/internal/controller/service.go:901-903 | with all weight on the level and none on the trend the level is the last value |
| `Forecast.LinearOnLine` | services/analytics-service/internal/controller/service.go:799-847 | on an exactly linear history the forecast is the line, cut at zero, with no band |
| `Forecast.EtsOnLine` | services/analytics-service/internal/controller/service.go:889-926 | so is exponential smoothing, for all weights |
| `ForecastLaws.ErrorCorrects` | services/analytics-service/internal/controller/service.go:895-904 | for all series and weights: each value moves the level by alpha times the error of its prediction beyond that prediction, and the trend by alpha beta times it |
| `ForecastLaws.EtsForecastBand` | services/analytics-service/internal/controller/service.go:905-926 | every point lies on the line of the last level and trend, cut at zero, within 1.5 deviations of the one-step errors |
| `ForecastLaws.SpreadExactly` | services/analytics-service/internal/controller/service.go:928-944 | the deviation squared is the mean square distance to the mean |
| `ForecastLaws.NoForecast` | services/analytics-service/internal/controller/service.go:800-802 | fewer than two days give no forecast |
| `ForecastLaws.FakeDates` | services/analytics-service/internal/controller/service.go:788-797 | consecutive days, the last one at the end |
| `Forecast.MakeFakePoints` | services/analytics-service/internal/controller/service.go:788-797 | one day per value, the last at the end date |
| `Forecast.BacktestMape` | services/analytics-service/internal/controller/service.go:946-973 | the loop computes the mean relative error over days that are not zero |
| `ForecastLaws.MapeIsMean` | services/analytics-service/internal/controller/service.go:946-973 | the score is a hundred times the mean size of the relative errors over the days held back that are not zero |
| `ForecastLaws.EvenlyOff` | services/analytics-service/internal/controller/service.go:751-756 | predictions that are all off by the fraction c score 100 |c|, however many days are zero, and the confidence follows |
| `ForecastLaws.NoScore` | services/analytics-service/internal/controller/service.go:947-960 | too few values, or not one prediction for each day, score zero |
| `ForecastLaws.SplitExactly` | services/analytics-service/internal/controller/service.go:950 | four fifths are trained on, rounded down |
| `Forecast.ErrorIsNegatives` | services/analytics-service/internal/controller/service.go:962-968 | predictions right but for the cut at zero err by the whole on negative days and not otherwise |
| `Forecast.BacktestOnLineExactly` | services/analytics-service/internal/controller/service.go:722-748 | either method's backtest of a linear series is zero if and only if it has fewer than 14 values or none held back is negative |
| `Forecast.NonNegativeLineIsHigh` | services/analytics-service/internal/controller/service.go:751-756 | a linear series without negative values has high confidence with either method |
| `Anomalies.DetectSalesAnomalies` | services/analytics-service/internal/controller/service.go:280-331 | the loops report what the specification says |
| `Anomalies.RevenueMoments` | services/analytics-service/internal/controller/service.go:283-290 | mean and deviation from the two sums |
| `Anomalies.DetectBusinessAnomalies` | services/analytics-service/internal/controller/service.go:231-278 | the same for drops of the average order value |
| `Anomalies.SumAovs` | services/analytics-service/internal/controller/service.go:234-243 | the sums and the number of days with orders |
| `AnomalyLaws.SalesReportsExactly` | services/analytics-service/internal/controller/service.go:280-331 | a report is made if and only if it tells, with its value, threshold, date and severity, of a day whose revenue is off or that has no orders |
| `AnomalyLaws.BusinessReportsExactly` | services/analytics-service/internal/controller/service.go:231-278 | the same for drops, from five days with orders on |
| `AnomalyLaws.RevenueOfDay` | services/analytics-service/internal/controller/service.go:291-313 | one report at most for each day, in the order of the days |
| `AnomalyLaws.DropOfDay` | services/analytics-service/internal/controller/service.go:249-274 | so for drops |
| `AnomalyLaws.AovsAre` | services/analytics-service/internal/controller/service.go:235-243 | the average order values are those of the days with a positive number of orders |
| `Anomalies.SalesReportsBounded` | services/analytics-service/internal/controller/service.go:280-331 | for all days: fewer than a quarter reported, fewer than a ninth critical, and each day without orders once |
| `Anomalies.DropReportsBounded` | services/analytics-service/internal/controller/service.go:231-278 | of the days with orders fewer than a fifth reported and fewer than a tenth critical, beyond the days with negative orders |
| `Anomalies.FiveDaysNeverReport` | services/analytics-service/internal/controller/service.go:244-255 | five days with orders never report a drop if no day has negative orders |
| `Anomalies.RevenueBoundReached` | services/analytics-service/internal/controller/service.go:290-296 | the bound of a quarter is reached for every even number of reports |
| `Anomalies.CriticalRevenueBoundReached` | services/analytics-service/internal/controller/service.go:290-301 | so is the bound of a ninth |
| `Anomalies.DropBoundReached` | services/analytics-service/internal/controller/service.go:244-255 | the bound of a fifth is reached for every number of reports |
| `Anomalies.CriticalDropBoundReached` | services/analytics-service/internal/controller/service.go:244-258 | so is the bound of a tenth |
| `Anomalies.NegativeDayBreaksBound` | services/analytics-service/internal/controller/service.go:249-255 | with a negative day it fails: two reports of six days with orders |
| `Anomalies.TwoSided` | services/analytics-service/internal/controller/service.go:290-301 | Chebyshev's bound at two and three standard deviations |
| `Anomalies.OneSided` | services/analytics-service/internal/controller/service.go:245-258 | Cantelli's bound at two and three standard deviations |

## Left out

- Handlers, routers, configuration, migrations, tracing, and the clients of PostgreSQL, NATS and Redis: only the state they carry is modelled.
- Floating point: numbers are exact reals, so rounding, overflow and results that are not numbers do not occur; the one division by zero, an average over no days, is modelled by its effect.
- Python's recursion limit: `SchemaResolve` has an explicit depth and asks whether some depth is enough.
- The directive pattern of the comment stripper is a parameter; its results hold for every pattern.
- `strip_sql` and `strip_python` of scripts/strip-comments.py, and literals under the composition of both passes: collapsing blank lines trims lines inside raw strings.
- Stock listings, reports and identifiers; time stamps; deadlocks and isolation anomalies, which single-row locks do not produce.
- `StockLedger.StockStorage.GetOrCreateStock`: two concurrent creations of one row, of which the database rejects one; creation is one step in `StockTransactions`.
- UTF-8 decoding of the event stream: texts are characters. JSON encoding and parsing are parameters, and documents that are no event objects are not modelled.
- Reconnecting, backoff, subscriptions and dropped broadcasts of the realtime hub.
- The bulk update of orders, which does not go through compare-and-set of single orders; cancel reasons; soft deletion.
- Concurrent shipment operations: there is no compare-and-set there, and the attempt number is read outside the transaction. Timeline events, senders, the recipient given at creation, tracking numbers, estimates and locations.
- `ShipmentConsumer.Consumer.HandleOrderStatusChanged`: handlers run one at a time, and an event that cannot be decoded, which is dropped, does not occur.
- `ShipmentConsumer.Consumer.FindByOrderID`: the filter on deleted shipments, since nothing in the service deletes one.
- The addresses that the rate limiter reads from headers, and its clock, which is a parameter that does not run backwards.
- `LoopGuard.Guard.Check`: the texts for the model; digests, which stand for the arguments.
- `LoopGuard.Guard.Record`: the Redis list, its expiry, and the switch between it and the in-process list.
- `LoopGuard.Guard.Reset`: the deletion of the Redis list.
- `ToolCache.MCPClient.CallTool`: backoff, time limits and the classification of exceptions, which is part of the outcome of an attempt; concurrent calls, where a read may store an answer that a mutation has overtaken; entries expire at any moment instead of after their time to live.
- `ToolLoop.RunToolLoop`: streaming, retries of the model and the budget's counters; runs that end in an exception; the model's answers, the outcome of each tool, the budget and the loop guard are a script.
- The rolling average, the filling of missing days, and the choice of method in `GetForecast`.
- Anomalies of logistics and inventory, and the wording of messages.
- Dashboards, what-if formulas, role tables, query builders and the other services: reading and writing of records without a property that spans operations.
