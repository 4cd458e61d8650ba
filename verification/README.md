# liteAIG in Dafny

A model of the parts of liteAIG, a gateway for AI traffic, that are hard to get right, with proofs about
every input, every run or every interleaving. `dafny verify dfyconfig.toml` checks all of it.

What is modelled, and the main result of each part:

- **API compatibility gate** (`OpenApi*`, `Json`, `JsonPointer`). Two OpenAPI documents are compared schema
  against schema through cyclic `$ref`s. Compatibility is a greatest fixed point over pairs of schema objects;
  the comparator is proved to report nothing for compatible documents and, where its `seen` keys identify the pairs,
  for no others. Against a JSON Schema meaning of recursive schemas, what a compatible change does to every value,
  whole request and whole response is decided by an exact condition; `OpenApiGaps` shows each hole with a value or a
  request; and additive changes are proved to pass. Termination is proved with the measure (keys not yet seen, schema).
- **Durable A2A relay** (`A2ARelay`, `A2ABudget`, `A2AAnswers`, `A2AOutcomes`). Any number of requests with one
  idempotency key, interleaved at every store call, with crashes: one holder at a time, one answer for ever, which is
  what the peer said, at most three admitted attempts, and a cause among the events for every other outcome.
- **Caches** (`LinkedList`, `LruSpec`, `LruStore`, `LruTimes`, `SemanticKey`, `Cosine`, `SemanticStore`,
  `SemanticTimes`, `CacheKey`, `Decimal`). The map-and-list LRU refines a sequence, a larger cache never misses where a
  smaller one hits, a lookup answers the last put exactly while it is in time and has not been pushed out, semantic
  search returns the best live vectors of its own collection, scores lie between -1 and 1.
- **Process coordination** (`Singleton`, `Drain`). A lease-based leader loop over timed steps, and the drain
  lifecycle interleaved at every access to shared state: what never happens, and what then does.
- **Streaming guardrail** (`Guardrail`, `Redactors`, `StreamGuard`). Redaction cuts a text at a literal and leaves none
  of it; the rolling window agrees with evaluating the whole text, for every division into chunks; the buffer loses nothing; the writer that joins them does lose text, and exactly
  when is proved.
- **Config diff** (`PointerEval`, `ConfigDiff`, `Redaction`, `EmptyDiff`). Flattening is evaluation of JSON Pointers as in sections
  3 and 4 of RFC 6901, in both directions; a diff applied to the old document gives the new one, tells nothing of
  sensitive values, which are told from the keys alone, and is empty exactly for documents that are alike.
- **Sliding-window limiters** (`SlidingWindow`, `HitStore`, `HitKeys`, `AdminLimiter`, `LoginLimiter`, `ResetLimiter`,
  `ResetExact`). Slices over shared backing arrays, filtered in place, against rules over the full history of calls,
  with the exact condition under which the reset limiter follows its rule.
- **Governance** (`Federation`, `FederationRuns`, `Approval`, `PolicyPublish`). Optimistic versions, read-modify-write deciders and
  compute-then-commit, over every interleaving.

Conventions. Go objects that change in place are classes, Go slices that are filtered in place are arrays with a
length, protocols are functions from state and event to state, with runs as folds over events. Clocks, random
identifiers, stores, remote calls and their failures are events or parameters. Floats are reals, times are
integers, text is a sequence of characters (bytes where the source counts bytes).

Findings. Each is a lemma with an input, next to the theorem about when the property does hold.

- The comparator misses an enum, an item schema or a property added where there was none, a type that shrinks to null
  alone, a dropped bound of a response, a required parameter or body that is new, credentials that the whole document
  newly asks for or that stop being optional, and a second pair of schemas under a key already seen (`OpenApiGaps`). All but the last are exact: `OpenApiSoundness.RequestIff` and `ResponseIff` for a
  value, `OpenApiClients.RequestTakenIff` and `ResponseGivenIff` for a request and a response.
- `StreamGuard.Write` documents that a final write loses no text; it drops what its own Push released
  (`StreamGuard.FinalSentenceIsLost`), exactly when the final delta completes the buffer (`DeliveredIffHeld`). It also
  ignores a blocked verdict on a release, which matters for literals longer than the window
  (`StreamGuard.BlockedReleaseIff`, `LongLiteralIsDelivered`). Redaction works on one released piece at a time, so a
  literal with the end of a sentence inside it reaches the client (`LiteralAcrossPieces`); and a replacement that
  overlaps its literal, or is empty, can put it together anew (`Redactors.EmptyReplacementJoins`).
- The reset limiter compacts an IP's list without storing the shorter slice when the account limit refuses; live hits
  are then counted twice and later sends refused too early (`ResetLimiter.AccountDenialOverRefuses`). When that
  happens is exact (`ResetExact.FullHistoryIff`). It never admits too many.
- A rejection of an approval request can be overwritten by a decider with an older copy
  (`Approval.RejectionIsOverwritten`), and only then can a decided request change (`DecidedStays`). A request created
  with its requester or one name twice among the approvers can be approved so, and no other (`OpeningIff`).
- A federation relationship put in SQL under the id of another tenant's keeps that tenant's column, so that tenant is
  given it (`Federation.OtherTenantIsServed`).
- The comment on semantic search speaks of candidates above zero; the code does not filter by sign, and neither does
  the model.
- The config diff cannot tell an empty container from a missing one, nor an array from an object with the keys "0",
  "1", ... (`EmptyDiff.EmptyContainerIsUnseen`, `IndexKeyIsUnseen`), and nothing else (`EmptyIffAlike`).
- A colon or a NUL in a name lets two collections of a cache share a key (`SemanticKey.ColonCollides`, `NulCollides`,
  `CacheKey.NulCollides`).

## Model

| member | source | states |
|---|---|---|
| `JsonPointer.UnescapeEscape` | internal/architecture/openapi.go:372-386 | the two replacements that unescape a token undo the two that escape a key, for every string |
| `JsonPointer.FollowPointer` | internal/architecture/openapi.go:372-386 | the loop over the split reference finds the value the token-by-token walk finds, or nothing |
| `JsonPointer.WalkStaysInside` | internal/architecture/openapi.go:372-386 | a reference that resolves leads to a value nested in the document |
| `JsonPointer.LocalIs` | internal/architecture/openapi.go:372-386 | a reference of one token selects the member of the document with the unescaped name, the empty name included |
| `OpenApiResolve.FollowingShrinks` | internal/architecture/openapi.go:337-370 | following one more reference leaves fewer references of the document to visit, the termination measure of resolution on any cyclic graph |
| `OpenApiResolve.ResolveLoop` | internal/architecture/openapi.go:334-370 | the loop with its visited set and overlays computes the recursive resolution, identifier included |
| `OpenApiResolve.JoinAppend` | internal/architecture/openapi.go:337-370 | the identity of a chain is its references in order, with arrows between them |
| `OpenApiResolve.ResolveInside` | internal/architecture/openapi.go:337-370 | everything in a resolved schema is nested in the document, so the comparison stays inside a finite set |
| `OpenApiRules.SchemaTypes` | internal/architecture/openapi.go:388-417 | type names without "null", and whether null is admitted, from the string and the list form and the nullable flag |
| `OpenApiRules.StringSet` | internal/architecture/openapi.go:437-452 | the strings of a list, other values skipped |
| `OpenApiRules.TypesAre` | internal/architecture/openapi.go:388-417 | which types a schema declares, from its own fields: the type or list of types, and null also by the nullable mark or a variant of anyOf or oneOf that is null |
| `OpenApiRules.ListsAre` | internal/architecture/openapi.go:437-473 | which names are required and which values are in the enum, from the schema's own fields |
| `OpenApiRules.SameSchemaIsOk` | internal/architecture/openapi.go:211-332 | a schema compared with itself breaks none of the keyword rules |
| `OpenApiRules.CoreKeeps` | internal/architecture/openapi.go:211-284 | no rule and no descent depends on an annotation such as a description |
| `Text.SortedKeys` | internal/architecture/openapi.go:475-482 | the keys in strictly increasing order, none missing and none added |
| `OpenApiCompare.Comparator.CompareEnums` | internal/architecture/openapi.go:291-313 | exactly the enum violations the rule for the direction calls for |
| `OpenApiCompare.ReportsAreTrue` | internal/architecture/openapi.go:211-313 | of one pair of schemas each keyword rule is reported, under its own name and at the pair's place, if and only if the pair breaks it in its direction |
| `OpenApiCompare.Comparator.CompareRequestBounds` | internal/architecture/openapi.go:315-332 | one violation for each minimum raised or added and each maximum lowered or added |
| `OpenApiCompare.Comparator.CompareTypes` | internal/architecture/openapi.go:211-232 | the type and nullability violations of the direction |
| `OpenApiCompare.Comparator.CompareRequired` | internal/architecture/openapi.go:234-248 | a violation for each request property newly required and each response property no longer required |
| `OpenApiCompare.Comparator.CompareKeywords` | internal/architecture/openapi.go:211-248 | silence exactly when all keyword rules hold for the pair |
| `OpenApiCompare.Comparator.CompareProperties` | internal/architecture/openapi.go:249-270 | a violation for a removed property, and the verdict of the recursive comparisons for the shared ones |
| `OpenApiCompare.Comparator.CompareItems` | internal/architecture/openapi.go:271-284 | a violation when the item schema is gone, otherwise the verdict of the item schemas |
| `OpenApiCompare.Comparator.CompareSchema` | internal/architecture/openapi.go:190-284 | terminates on every finite document; silent whenever the pair lies in some set of pairs closed under the rules; and silence puts the pair and all it leads to into such a set, where keys identify pairs; a pair already seen is skipped |
| `OpenApiCompare.KeyLeavesUniverse` | internal/architecture/openapi.go:199-210 | marking a key leaves fewer keys of a finite universe, the first component of the termination measure |
| `OpenApiCompare.VerdictSkip` | internal/architecture/openapi.go:199-210 | a pair cut off as seen is answered by the visit that marked its key |
| `OpenApiDocument.CollectParameters` | internal/architecture/openapi.go:120-151 | the parameters by location and name after resolving references, the last of a name winning |
| `OpenApiDocument.CompareParameters` | internal/architecture/openapi.go:120-151 | silence exactly when no old parameter is removed or becomes required and the schemas of the shared ones are compatible; new parameters are not looked at |
| `OpenApiDocument.DeclaredIsThere` | internal/architecture/openapi.go:120-131 | the map of the new parameters holds, under location and name, the last item that has both |
| `OpenApiDocument.ThereIsDeclared` | internal/architecture/openapi.go:120-131 | and nothing else |
| `OpenApiDocument.CompareRequestBody` | internal/architecture/openapi.go:153-169 | silence exactly when an old body is not removed, not newly required, and its media types are kept and compatible; a body where there was none is not looked at |
| `OpenApiDocument.CompareContent` | internal/architecture/openapi.go:171-188 | silence exactly when every media type is kept with a compatible schema |
| `OpenApiDocument.CompareOperation` | internal/architecture/openapi.go:95-118 | the verdict of parameters, security, request body and every response status; `OpenApiClients.NoNewSecurity` and `OpenApiGaps.BareOperationIff` say which security changes are reported |
| `OpenApiDocument.CompareOpenApi` | internal/architecture/openapi.go:55-83 | a compatible change is never reported; where keys identify the pairs reached, silence proves the change compatible |
| `OpenApiDocument.ReachIsClosed` | internal/architecture/openapi.go:55-83 | the uses reachable from a document pair are closed under descending into properties, items and references |
| `OpenApiSoundness.ReachIsKnown` | internal/architecture/openapi.go:55-188 | every schema the comparison can meet is a value of its document |
| `OpenApiMeaning.ChainHasNoLoop` | internal/architecture/openapi.go:337-370 | a chain of references that ends in a schema never visits a reference twice |
| `OpenApiMeaning.ResolveSameCore` | internal/architecture/openapi.go:337-370 | objects that differ in annotations resolve to objects that differ in annotations, whatever is overlaid on the way |
| `OpenApiMeaning.ResolveDenotes` | internal/architecture/openapi.go:337-370 | resolution finds the schema the chain of references denotes, annotations aside, when the siblings of references are annotations |
| `OpenApiSoundness.RequestIff` | internal/architecture/openapi.go:190-284 | for a compatible pair, a JSON value the old request schema accepts is accepted by the new one if and only if it meets what is new: an enum, an item schema, a property or a schema where there was none, null where only null is left, and whatever the keywords mean that are never read; through recursive references |
| `OpenApiSoundness.ResponseIff` | internal/architecture/openapi.go:190-284 | a JSON value the new response schema allows was allowed by the old one if and only if it meets the old bounds, an old enum that is extensible or gone, null where only null was allowed, and what the unread keywords mean; through recursive references |
| `OpenApiSoundness.RequestAccepted` | internal/architecture/openapi.go:190-284 | a consequence: where no enum, item schema, null-only type or keyword that is not compared appears, a value without properties new to the schema stays accepted |
| `OpenApiSoundness.ResponseAllowed` | internal/architecture/openapi.go:190-284 | a consequence: where no bound, enum value or null-only type of the old schema is dropped, a value the new schema allows was allowed |
| `OpenApiSoundness.KeysAreFaithful` | internal/architecture/openapi.go:199-210 | when the siblings of references are annotations and a schema is written by reference on both sides or on neither, the key of a visit determines the pair of resolved schemas, so cutting off by key is sound |
| `OpenApiSoundness.KeyInjective` | internal/architecture/openapi.go:199-210 | direction and both identifiers can be read back from the key text when they hold no bar |
| `OpenApiSoundness.CompatibleIsSafe` | internal/architecture/openapi.go:190-284 | where nothing is new or dropped that the comparator does not look at, a compatible change is safe at every place a schema is used |
| `OpenApiSoundness.CompatibleDecidesSchemas` | internal/architecture/openapi.go:55-188 | for a compatible change of readable documents, both conditions decide every value at every place a schema is used |
| `OpenApiClients.Gate` | cmd/openapi-compat/main.go:12-33 | the gate passes every compatible change; where keys tell pairs apart it passes exactly those, and then, for documents whose references lead to schemas, every value, request and response is decided as the rows above and below say, whatever the unread keywords mean |
| `OpenApiClients.RequestTakenIff` | internal/architecture/openapi.go:95-169 | for an operation that passed, a request the old operation accepts, with its parameter values by location and name, its optional body and its credentials or none, is accepted by the new one if and only if no new parameter is required, no body is required where there was none, it has credentials or none are newly asked for by the document or by requirements the operation had, and its values meet what is new in their schemas |
| `OpenApiClients.ResponseGivenIff` | internal/architecture/openapi.go:107-117 | a response the new operation may give was possible before if and only if the old operation declares its status and its media type and the value meets what the old schema demanded and the comparator lets go |
| `OpenApiClients.CompatibleDecides` | internal/architecture/openapi.go:55-83 | both, for every path and method of a compatible change; no operation is lost |
| `OpenApiClients.ParameterKeyInjective` | internal/architecture/openapi.go:120-138 | location and name can be read back from a parameter's key when the location holds no colon |
| `OpenApiClients.NoNewSecurity` | internal/architecture/openapi.go:101-103 | in a compatible change an operation without security requirements of its own, or with an empty list, has none afterwards; no operation is lost |
| `OpenApiGaps.EnumAddedIsMissed` | internal/architecture/openapi.go:291-313 | an enum added to a request schema without one is silent although it shuts a value out |
| `OpenApiGaps.ItemsAddedIsMissed` | internal/architecture/openapi.go:271-284 | the same for an item schema added to an array |
| `OpenApiGaps.NullOnlyIsMissed` | internal/architecture/openapi.go:211-232 | the same for a string type that becomes null alone |
| `OpenApiGaps.PropertyAddedIsMissed` | internal/architecture/openapi.go:249-270 | the same for a property declared that was not |
| `OpenApiGaps.BoundDroppedIsMissed` | internal/architecture/openapi.go:243-245 | a bound dropped from a response schema is silent although a value comes in |
| `OpenApiGaps.ExtensibleEnumGrows` | internal/architecture/openapi.go:295-313 | the same for a value added to an enum marked as extensible, as the mark intends |
| `OpenApiGaps.SharedKeyHidesChange` | internal/architecture/openapi.go:199-210 | two different inline schemas that become one reference share a key, although only one of the changes is compatible |
| `OpenApiGaps.SecondUseIsSkipped` | internal/architecture/openapi.go:199-210 | after a compatible pair, any pair with the same key is passed over without a report |
| `OpenApiGaps.BareOperationIff` | internal/architecture/openapi.go:95-169 | an operation that declares nothing but, perhaps, security requirements may become any other, whatever the document asks of all operations, if and only if it does not get requirements of its own where it had none: dropping or keeping them passes |
| `OpenApiGaps.RequiredParameterAddedIsMissed` | internal/architecture/openapi.go:120-151 | a GET that gains a required query parameter passes and refuses the request it accepted before |
| `OpenApiGaps.RequiredBodyAddedIsMissed` | internal/architecture/openapi.go:153-156 | the same for a required body |
| `OpenApiGaps.DocumentSecurityAddedIsMissed` | internal/architecture/openapi.go:101-103 | requirements added at the top of the document pass, and the operation then refuses a request without credentials that it accepted before |
| `OpenApiGaps.SecurityTightenedIsMissed` | internal/architecture/openapi.go:101-103 | the same for optional credentials that become mandatory |
| `OpenApiAdditive.ResolveGrows` | internal/architecture/openapi.go:337-370 | resolving corresponding schemas of a document and its extension gives corresponding schemas |
| `OpenApiAdditive.GrownIsPostFixed` | internal/architecture/openapi.go:211-284 | the pairs of an extension satisfy the keyword rules and lead only to such pairs |
| `OpenApiAdditive.ExtensionIsCompatible` | internal/architecture/openapi.go:52-83 | added paths, methods, response properties and optional request properties keep a document compatible |
| `OpenApiAdditive.WellFormedExtendsItself` | internal/architecture/openapi.go:52-83 | a well-formed document is an extension of itself |
| `OpenApiAdditive.AdditiveChangePasses` | internal/architecture/openapi.go:52-83 | the comparator reports nothing for any additive change |
| `A2ARelay.RunKeeps` | internal/app/gateway.go:489-664 | every interleaving of store calls, retries, crashes and stale-row recovery keeps the invariant of rows and requests |
| `A2ARelay.AtMostOneHolder` | internal/app/gateway.go:587-664 | at most one request is between a successful claim and its settling, when each settles within the running TTL |
| `A2ARelay.SuccessesAgree` | internal/app/gateway.go:499-664 | every success for a key names the same task and content, those of the stored completed row; `A2AAnswers.SuccessIsPeersAnswer` says where they come from |
| `A2ARelay.CompletedStays` | internal/platform/storage/sqlrepo/a2atask.go:108-181 | no step changes a completed row or calls the connector for it |
| `A2ARelay.CompletedForever` | internal/app/gateway.go:499-664 | after the first completion the row never changes again and the connector is never called for the key |
| `A2ABudget.BudgetHolds` | internal/app/gateway.go:597-609 | in every run, overrunning holders included: calls never exceed hops, hops never exceed three, the connector is called at most six times for a key, and a charge fits exactly when its hops do |
| `A2ABudget.RefusalIsHopLimit` | internal/app/gateway.go:604-609 | in every run a refused charge ends as the hop limit if its row can be read back and as the call limit if not, and its row is failed if that can be stored |
| `A2ABudget.ChargeDecides` | internal/platform/storage/sqlrepo/a2atask.go:108-133 | in every run a claimed task is charged and called exactly when the hops of all attempts come to three at most; the charge is the hops of the request and one call |
| `A2ABudget.RunKeeps` | internal/app/gateway.go:587-664 | the invariant behind both, over every interleaving without any assumption on time: each row's counters, and the tries that relays in flight have left |
| `A2ABudget.CallsAreCharged` | internal/app/gateway.go:597-609 | in every run the connector is never called for a key that has no row |
| `A2ARelay.OverdueHolderIsOvertaken` | internal/platform/storage/sqlrepo/a2atask.go:154-169 | a holder past the TTL is overtaken: four steps of another request make it a second holder |
| `A2AAnswers.SuccessIsPeersAnswer` | internal/app/gateway.go:645-664 | in every run, overrunning holders included, a success for a key carries what the peer answered to a call that a request of the key stood before, and the id of the request that inserted the row |
| `A2AAnswers.RunIsTraced` | internal/app/gateway.go:489-664 | the invariant behind it: every row was inserted by the request it names, and every completed row, called request and success has its answer of the peer |
| `A2AAnswers.LookupAnswers` | internal/app/gateway.go:489-532 | what a request is told on arrival, for each state of the row: too many hops, a replay, in progress, a retry, or a new task; a row that ran too long counts as failed |
| `A2AAnswers.RequestSucceeds` | internal/app/gateway.go:489-664 | a request for a new key that is approved and whose call is answered, stored and reported ends in a success with its own id and the answer, after one call |
| `A2AAnswers.RepeatIsReplayed` | internal/app/gateway.go:508-518 | a later request with the key gets the same success, and no row and no count of calls changes |
| `A2AAnswers.RetrySucceeds` | internal/app/gateway.go:527-664 | a request that finds a failed task with room for its hops can still succeed, under the id of the first request |
| `A2AOutcomes.OutcomesAreTrue` | internal/app/gateway.go:489-664 | in every run an outcome other than a success has its cause among the events: the key was found taken, the hops did not fit, the refused row could not be read, or the peer, the approval, the store or the request failed |
| `A2AOutcomes.PendingIsItsCreators` | internal/app/gateway.go:543-596 | a task that was never tried is claimed by the request that created it and by no other |
| `A2AOutcomes.HolderClaimed` | internal/platform/storage/sqlrepo/a2atask.go:135-152 | whoever holds a task claimed it, at the time it has on record, from a status in which nobody ran it |
| `A2AOutcomes.InvokedIsExact` | internal/app/gateway.go:620-631 | the count of connector calls is the number of call events of requests of the key that no open circuit stopped |
| `A2AOutcomes.AtMostSixCalls` | internal/app/gateway.go:597-631 | in every run there are at most six such events for a key |
| `A2AOutcomes.ChangesAreStamped` | internal/platform/storage/sqlrepo/a2atask.go:108-181 | every change of a row carries the time at which it was made, which the recovery of stale rows goes by |
| `A2AOutcomes.ResultMeansCompleted` | internal/platform/storage/sqlrepo/a2atask.go:135-181 | only a completed task has a result |
| `A2AOutcomes.AdoptionDecides` | internal/app/gateway.go:555-586 | a request that lost the race to create is answered from a completed row, told of a pending or running one, and goes on to claim a failed one without a second approval |
| `A2AOutcomes.FailedCallFails` | internal/app/gateway.go:645-651 | a call that failed leaves a failed task without a result |
| `LinkedList.List.PushFront` | internal/cache/memory.go:64-86 | a new element becomes the front of the list, the others keep their order |
| `LinkedList.List.Remove` | internal/cache/memory.go:97-102 | the element leaves, pointers join its neighbours, the others keep their order |
| `LinkedList.List.MoveToFront` | internal/cache/memory.go:44-62 | the element comes first, the others keep their order |
| `LruStore.MemoryStore.constructor` | internal/cache/memory.go:31-42 | an empty store, with the default capacity for a non-positive one |
| `LruStore.MemoryStore.Get` | internal/cache/memory.go:44-62 | returns and leaves what the sequence model does, which `LruTimes` tells from the operations; expired entries leave; a hit or a miss is counted; the list keeps only nodes it had |
| `LruStore.MemoryStore.Put` | internal/cache/memory.go:64-86 | leaves the entry first and the tail driven out, and counts the put and the evictions; every node is one it had or new |
| `LruStore.MemoryStore.Delete` | internal/cache/memory.go:88-95 | leaves the sequence without the key, no counter changed, and only nodes it had |
| `LruStore.MemoryStore.Remove` | internal/cache/memory.go:97-102 | map and list lose the same element |
| `LruStore.MemoryStore.Evict` | internal/cache/memory.go:76-85 | the eviction loop keeps the most recent entries up to the capacity and map and list in agreement |
| `LruStore.Serve` | internal/cache/memory.go:44-101 | a store asked once for each operation holds the run of the sequence model, answers each Get as it does, and hits and misses add up to the number of Gets |
| `LruStore.LargerAnswers` | internal/cache/memory.go:44-101 | two stores of different capacity that serve the same operations: what the smaller answers, the larger answers the same |
| `LruSpec.RunKeepsShape` | internal/cache/memory.go:44-101 | in every run keys are distinct and the capacity holds |
| `LruSpec.LargerHoldsMore` | internal/cache/memory.go:44-101 | for the same operations and clock readings, a larger cache holds every entry of a smaller one, unchanged and in the same order |
| `LruSpec.HitOneMore` | internal/cache/memory.go:44-62 | a hit of the smaller cache is the same hit of the larger one |
| `LruTimes.HitIsLastPut` | internal/cache/memory.go:44-86 | in every run an answer is the entry of the last put of the key; nothing put or deleted the key since, and neither this lookup nor one in between came after its time to live |
| `LruTimes.LastPutIsHit` | internal/cache/memory.go:44-86 | with no more distinct keys used since than there is room for, the last put is answered if and only if its time to live is not positive or has not passed |
| `LruTimes.ManyPutsPushOut` | internal/cache/memory.go:64-86 | puts of as many other keys as there is room for push a key out |
| `Decimal.ItoaLoop` | internal/cache/cache.go:34-51 | the digit loop yields the decimal text, and "-" for the least 64-bit integer, whose negation overflows |
| `Decimal.ItoaInjective` | internal/cache/cache.go:34-51 | different 64-bit integers have different texts |
| `Decimal.DigitsRoundTrip` | internal/controlplane/config/diff.go:101-104 | the decimal text of a number is an array index of RFC 6901 and reads back as the number |
| `CacheKey.PreimageInjective` | internal/cache/cache.go:27-32 | different cache keys are hashed from different texts, whatever the request text, if the names hold no NUL |
| `CacheKey.NulCollides` | internal/cache/cache.go:27-32 | whatever stands around a NUL in a name, two tenants share a text, for every model, request and version |
| `SemanticKey.NamespaceInjective` | internal/cache/semantic.go:30-33 | keys share a namespace exactly when tenant, project, model, dimension and version agree, if tenant and project hold no colon |
| `SemanticKey.ColonCollides` | internal/cache/semantic.go:30-33 | whatever stands around a colon in a name, two tenants share a namespace |
| `SemanticKey.MapKeyInjective` | internal/cache/semantic.go:85 | namespace and source key can be read back from the map key when the namespace holds no NUL |
| `SemanticKey.NulCollides` | internal/cache/semantic.go:85 | with a NUL in the name of a model, a vector of one collection stands under the map key of another, for every collection |
| `Cosine.Similarity` | internal/cache/semantic.go:168-183 | the accumulating loop computes the quotient of the inner product and the norms, and no number for unequal, empty or zero vectors |
| `Cosine.DotBounded` | internal/cache/semantic.go:173-178 | the square of the inner product is at most the product of the squared norms |
| `Cosine.ScoreBounded` | internal/cache/semantic.go:168-183 | a score exists exactly for two non-zero vectors of one positive length, and lies between -1 and 1 |
| `SemanticStore.MemorySemanticStore.Put` | internal/cache/semantic.go:87-114 | an entry of the same map key is renewed and moved to the front, a new one comes first and the least recent are driven out |
| `SemanticStore.MemorySemanticStore.Search` | internal/cache/semantic.go:116-160 | a non-positive limit is refused; otherwise expired entries of the namespace leave and the answer is the best of the live ones, sorted, each once, nothing omitted scoring above the last |
| `SemanticStore.MemorySemanticStore.Collect` | internal/cache/semantic.go:125-142 | the scan gathers exactly the live vectors of the namespace and drops exactly its expired entries |
| `SemanticStore.ScoreAll` | internal/cache/semantic.go:144-151 | one candidate for each vector that has a score, in any order of the map |
| `SemanticStore.Sort` | internal/cache/semantic.go:152-156 | the in-place insertion sort leaves a permutation in descending order of score |
| `SemanticStore.CutIsBest` | internal/cache/semantic.go:157-160 | cutting the sorted candidates at the limit omits only scores not above the last |
| `SemanticStore.RunIsTraced` | internal/cache/semantic.go:87-114 | in every run each entry is what one put stored, under its own namespace and source key, if names hold no NUL |
| `SemanticStore.SearchStaysInside` | internal/cache/semantic.go:116-142 | a search sees only unexpired vectors that were put for its own tenant, project, model, dimension and version |
| `SemanticTimes.SeenIsLastPut` | internal/cache/semantic.go:87-142 | a vector that a search sees is the last one put for its collection and source, and neither this search nor one in between came after its time to live |
| `SemanticTimes.LastPutIsSeen` | internal/cache/semantic.go:87-142 | with no more distinct keys put since than there is room for, a search sees the last put of a source, with its vector, if and only if it is in time |
| `SemanticStore.Serve` | internal/cache/semantic.go:87-160 | a store asked once for each put and search answers every search from the run before it |
| `SemanticStore.AnswersStayInside` | internal/cache/semantic.go:116-160 | every candidate a served search returns was put before it for the same collection, has not expired, and has the score of its vector |
| `Singleton.RunKeeps` | internal/app/singleton.go:47-93 | every interleaving of loops, timers, crashes and store errors keeps the lease invariant |
| `Singleton.OneJobAtATime` | internal/app/singleton.go:47-93 | no two processes run the job at once, if each job ends within the TTL of its grant |
| `Singleton.OverrunIsOvertaken` | internal/platform/storage/sqlrepo/coordination.go:35-68 | once the lease of a running job has lapsed, a process that asks gets in beside it |
| `Singleton.JobNeedsGrant` | internal/app/singleton.go:47-93 | one step: a job starts only from a grant, and a grant is a call of the store answered with yes that wrote the lease |
| `Singleton.JobHasGrant` | internal/app/singleton.go:47-93 | in every run, a process at its job got an answered grant earlier, and the lease row was written then for the lease it works under |
| `Singleton.ShutdownHandsOver` | internal/app/singleton.go:47-93 | after a release that reached the store, the next process that asks is granted a new lease, whatever else happens in between |
| `Singleton.GrantLeadsToJob` | internal/app/singleton.go:54-82 | in any run a holder whose lease is its own and in force renews it for a full TTL and runs the job; so does, under a new lease, a process that is no holder when the row is missing or lapsed |
| `Singleton.LostLeaseIsGivenUp` | internal/app/singleton.go:70-76 | in any run a holder whose lease is gone, another's or lapsed runs no job and stands at the next interval where it asks for a new lease |
| `Singleton.LapsedLeaderComesBack` | internal/app/singleton.go:54-82 | if the lease had merely lapsed, it leads again one interval later, under a new one |
| `Singleton.NewcomerLeads` | internal/app/singleton.go:51-69 | a new process that finds the row missing or lapsed leads at once |
| `Singleton.JobIsRepeated` | internal/app/singleton.go:54-93 | when a job ends its process, still the holder, is back at the top of the loop an interval later |
| `Singleton.StoppedIffEnded` | internal/app/singleton.go:54-93 | in every run a loop is over if and only if a crash, or a shutdown while it waited, ended it: no failing store, lost lease or failing job does |
| `Drain.RunKeeps` | internal/app/lifecycle.go:171-228 | every interleaving of the steps of Acquire, DoneInflight, BeginDrain and the stream registry keeps the invariant |
| `Drain.PhasesOnlyAdvance` | internal/app/lifecycle.go:196-228 | phases move from running to draining to exited, one at a time and never back |
| `Drain.CounterIsExact` | internal/app/lifecycle.go:168-189 | the in-flight counter is the number of accepted requests that are not done |
| `Drain.SealedRefuses` | internal/app/lifecycle.go:179-189 | once the drain has taken the gate no request stands between its look at the phase and its count |
| `Drain.NoneAcceptedAfterSeal` | internal/app/lifecycle.go:196-215 | every request ever accepted was counted before the drain took the gate, and none is accepted after |
| `Drain.FinalizesOnceAndLast` | internal/app/lifecycle.go:210-228 | the finalizer runs at most once, with every accepted request done or a drainer having given up its wait for them by timeout, and every stream gone or a drainer having given up its wait for those |
| `Drain.LookDecides` | internal/app/lifecycle.go:179-189 | in every interleaving, from its look at the phase on a request goes its way by its own steps alone: one that saw RUNNING is counted, served and done, any other is refused |
| `Drain.AloneAtGate` | internal/app/lifecycle.go:179-189 | in any run a request that finds the gate free is served and counted while RUNNING, and otherwise refused without a trace |
| `Drain.LoneDrainExits` | internal/app/lifecycle.go:196-228 | in any run with a free gate, every accepted request done and no stream open, a drain goes through to the end by itself: the finalizer runs once and the phase is EXITED |
| `Drain.SecondDrainReturns` | internal/app/lifecycle.go:196-199 | a second drain returns at once and changes nothing |
| `Drain.RegistryIsExact` | internal/app/lifecycle.go:85-117 | in every run the registry holds exactly the streams registered before the drain told it and not unregistered since |
| `Guardrail.Evaluate` | internal/guardrail/builtin/engine.go:66-92 | the loop over the rules gives the verdict, content and matches of applying them one after another up to the first block; `Redactors` says what these are |
| `Guardrail.BlocksBanned` | internal/guardrail/builtin/engine.go:66-92 | an engine whose blocking rules are literal and come first blocks exactly the texts that contain one of the literals |
| `Redactors.ReplaceJoins` | internal/guardrail/builtin/engine.go:74-76 | replacing joins with the replacement the pieces into which the text is cut at the occurrences of the literal, each first in what remains |
| `Redactors.CutExists` | internal/guardrail/builtin/engine.go:74-76 | every text has such a cut, and no piece holds the literal |
| `Redactors.ReplacedIsGone` | internal/guardrail/builtin/engine.go:74-76 | a literal is gone after its redaction, if the replacement differs from it wherever the two overlap |
| `Redactors.NothingInCommon` | internal/guardrail/builtin/engine.go:59-61 | a replacement that shares no character with the literal does |
| `Redactors.DefaultIsApart` | internal/guardrail/builtin/engine.go:59-61 | so does the default replacement, for any literal that has no square bracket and is not a part of it |
| `Redactors.EmptyReplacementJoins` | internal/guardrail/builtin/engine.go:59-61 | an empty replacement, which New never leaves, can put the literal together anew |
| `Redactors.VerdictIsFree` | internal/guardrail/builtin/engine.go:66-92 | a text that an engine of literal rules does not block comes out without any of its literals, when no replacement overlaps one |
| `Redactors.VerdictIsStable` | internal/guardrail/builtin/engine.go:66-92 | and evaluating it again changes and reports nothing |
| `Redactors.ReportsAre` | internal/guardrail/builtin/engine.go:83-89 | the matches name rules in their order, each once, with their action; the text is blocked exactly when the last of them blocks |
| `StreamGuard.InlineStreamGuard.constructor` | internal/guardrail/stream.go:37-42 | an empty window, 256 bytes wide for a non-positive width |
| `StreamGuard.InlineStreamGuard.Evaluate` | internal/guardrail/stream.go:44-55 | the chunk is judged together with the last windowBytes bytes of all text before it |
| `StreamGuard.SeenIffContained` | internal/guardrail/stream.go:44-55 | for every division into chunks, some evaluation sees a literal of at most windowBytes + 1 bytes exactly when the whole text contains it |
| `StreamGuard.LongerIsMissed` | internal/guardrail/stream.go:44-55 | the bound is sharp: a literal two bytes longer than the window, arriving byte by byte, is never seen |
| `StreamGuard.BufferedStreamGuard.Push` | internal/guardrail/stream.go:72-82 | text is held until a chunk has a boundary or the word count is reached, then judged as a whole |
| `StreamGuard.BufferedStreamGuard.Flush` | internal/guardrail/stream.go:84-93 | what was held is judged and the buffer is empty |
| `StreamGuard.NothingLost` | internal/guardrail/stream.go:72-93 | the released texts followed by the held one are exactly the input |
| `StreamGuard.HeldIsIncomplete` | internal/guardrail/stream.go:72-82 | held text has no sentence boundary and fewer words than the bound |
| `StreamGuard.Writer.Write` | internal/gateway/guardrail/streamwire.go:67-113 | one delta through both layers: cut, held, released, or flushed at the end |
| `StreamGuard.DeliveredIffHeld` | internal/gateway/guardrail/streamwire.go:92-113 | the whole text is delivered exactly when the final delta does not complete the buffer; otherwise what was held is dropped |
| `StreamGuard.EmptyFinalIsSafe` | internal/gateway/guardrail/streamwire.go:92-103 | a final write of no text loses nothing |
| `StreamGuard.FinalSentenceIsLost` | internal/gateway/guardrail/streamwire.go:92-103 | a final delta that ends a sentence loses the text it should release |
| `StreamGuard.WriteAll` | internal/gateway/guardrail/streamwire.go:67-113 | for any engine the stream is cut at the first delta that layer 1 blocks, and the client has what the rules leave of the texts released until then; for short blocking literals before any rewriting that is exactly when the whole text holds one, at the delta that completes the first; and when nothing rewrites, the client has a prefix, complete exactly when the last delta leaves the buffer open |
| `StreamGuard.ShownIsRedacted` | internal/gateway/guardrail/streamwire.go:67-113 | for an engine of literal redactions whose replacements overlap no literal, what is delivered is one piece for each released text, none with a literal in it; the stream is not cut |
| `StreamGuard.LiteralAcrossPieces` | internal/gateway/guardrail/streamwire.go:67-113 | across two pieces it can be: any literal with the end of a sentence inside is delivered whole |
| `StreamGuard.FieldsCountsWords` | internal/guardrail/stream.go:72-82 | the word count that completes a buffer is the number of places where a character that is no white space follows white space or begins the text |
| `StreamGuard.BlockedReleaseIff` | internal/gateway/guardrail/streamwire.go:92-113 | in an uncut stream a release is judged blocked, and still handed on, exactly when it holds a banned literal, and then each one in it is longer than windowBytes + 1 |
| `StreamGuard.LongLiteralIsDelivered` | internal/gateway/guardrail/streamwire.go:92-113 | it happens for every such literal without a boundary and with few words, arriving byte by byte |
| `PointerEval.EscapeUnescape` | internal/controlplane/config/diff.go:112-114 | every valid reference token is the escape of exactly one key |
| `PointerEval.ObjectChild` | internal/controlplane/config/diff.go:91-100 | the members of an object are selected by their escaped keys, one each |
| `PointerEval.ArrayChild` | internal/controlplane/config/diff.go:101-104 | the items of an array are selected by their decimal positions, one each |
| `ConfigDiff.FlattenValue` | internal/controlplane/config/diff.go:91-110 | the recursion adds to the map exactly the leaves of the value under its path |
| `ConfigDiff.Flatten` | internal/controlplane/config/diff.go:77-89 | the map holds exactly the pointers that RFC 6901 evaluates to a scalar, each with that scalar |
| `ConfigDiff.PathEvaluatesBack` | internal/controlplane/config/diff.go:91-114 | the path built for a position evaluates back to what stands there |
| `ConfigDiff.PathsAreDistinct` | internal/controlplane/config/diff.go:91-114 | two positions of a document never get the same path |
| `ConfigDiff.DiffPath` | internal/controlplane/config/diff.go:49-73 | the entry of one path: operation, both sides, sensitivity and redaction, or none when the values agree; `Redaction` says which paths are sensitive |
| `ConfigDiff.SemanticDiff` | internal/controlplane/config/diff.go:26-75 | one entry for each path whose scalars differ, in path order, and none exactly when all leaves agree |
| `ConfigDiff.PatchGivesNew` | internal/controlplane/config/diff.go:26-75 | applying the unredacted entries to the old flattened document gives the new one on every path that is not sensitive |
| `ConfigDiff.PatchIsExact` | internal/controlplane/config/diff.go:26-75 | with no sensitive path in the diff, the result is the new flattened document |
| `ConfigDiff.SensitiveIsRedacted` | internal/controlplane/config/diff.go:64-71 | an entry on a sensitive path shows no value |
| `ConfigDiff.DiffKeepsSecrets` | internal/controlplane/config/diff.go:26-75 | two changes that agree but for values on sensitive paths have the same diff: it tells only that such a value is there and whether it changed |
| `Redaction.KeyIsHidden` | internal/controlplane/config/diff.go:64-71 | under a key, whatever stands before it, each value of an entry is hidden if and only if the key in lower case, escaped or not, is "secret_ref" or "authorization" or has "password" or "secret" in it, and shown otherwise |
| `Redaction.ItemIsShown` | internal/controlplane/config/diff.go:100-103 | the value of an array item is never hidden |
| `Redaction.PositionIsHidden` | internal/controlplane/config/diff.go:91-120 | a position of a document is hidden if and only if its last step is such a key |
| `Redaction.LowerIs` | internal/controlplane/config/diff.go:116-120 | lower-casing keeps the length, turns the ASCII capitals into small letters and changes nothing else |
| `Redaction.OperationIsTrue` | internal/controlplane/config/diff.go:56-63 | an entry is added, removed or modified as the path leads to a value on the right side, the left side, or different ones on both |
| `EmptyDiff.SameLeavesIffAlike` | internal/controlplane/config/diff.go:77-110 | for any two documents: the same leaves exactly when they are alike, that is equal scalars, or containers whose children that hold a scalar stand under the same tokens and are alike |
| `EmptyDiff.EmptyIffAlike` | internal/controlplane/config/diff.go:26-75 | for any two documents the diff is empty exactly when they are alike |
| `EmptyDiff.AlikeIsEqual` | internal/controlplane/config/diff.go:77-110 | documents without empty containers and index-like keys are alike exactly when they are equal |
| `EmptyDiff.EmptyIffEqual` | internal/controlplane/config/diff.go:26-75 | without empty containers and keys that read as array indices, the diff is empty exactly when nothing changed |
| `EmptyDiff.EmptyContainerIsUnseen` | internal/controlplane/config/diff.go:91-110 | an empty list added under any key is not seen |
| `EmptyDiff.IndexKeyIsUnseen` | internal/controlplane/config/diff.go:91-110 | an array that becomes an object with the key "0" is not seen |
| `HitStore.Compact` | internal/controlplane/adminapi/adminlimit.go:55-64 | the loop leaves the live hits at the front of the same array, in order, and the old elements behind them |
| `HitStore.Append` | internal/controlplane/adminapi/adminlimit.go:50-52 | the hit is appended in place while there is room, otherwise in a larger copy |
| `HitStore.Store.Recent` | internal/controlplane/adminapi/resetratelimit.go:81-91 | filtering a key's slice shows in the map as the compacted array under the old length; no other key changes |
| `HitStore.Store.Push` | internal/controlplane/adminapi/adminlimit.go:50-52 | storing an appended slice replaces the key's hits; no two keys share an array |
| `HitStore.Spend` | internal/controlplane/adminapi/resetratelimit.go:64-78 | the two lists after the IP check, the account check and the sends, the IP's left compacted when only the account is full |
| `HitKeys.TextInjective` | internal/controlplane/adminapi/loginlimit.go:76-84 | keys of one limiter have different texts, for logins if no IP holds a bar |
| `AdminLimiter.AdminRateLimiter.constructor` | internal/controlplane/adminapi/adminlimit.go:20-31 | empty lists and the defaults for non-positive settings |
| `AdminLimiter.AdminRateLimiter.Allow` | internal/controlplane/adminapi/adminlimit.go:35-53 | decision and lists are those of the step on values |
| `AdminLimiter.DecisionIsFullHistory` | internal/controlplane/adminapi/adminlimit.go:35-64 | for calls in time order the decision is: fewer than the limit of all admitted hits of each key lie in the last window |
| `AdminLimiter.WindowsAreBounded` | internal/controlplane/adminapi/adminlimit.go:35-53 | the full-history rule never logs more hits of a key in a window than its limit |
| `AdminLimiter.Serve` | internal/controlplane/adminapi/adminlimit.go:35-64 | a limiter object asked once for each call takes the full-history decision every time, and no window holds more admitted calls from an IP or of an administrator than its limit |
| `LoginLimiter.LoginLimiter.Allow` | internal/controlplane/adminapi/loginlimit.go:52-72 | live hits counted; with record, the list is stored with the new hit when below the limit; without, the map keeps the old length over the compacted array |
| `LoginLimiter.LoginLimiter.IPAllowed` | internal/controlplane/adminapi/loginlimit.go:74-78 | the step on values for the client's list and the limit per IP |
| `LoginLimiter.LoginLimiter.AccountBlocked` | internal/controlplane/adminapi/loginlimit.go:80-84 | the step on values for the pair's list and the failure limit, negated |
| `LoginLimiter.DecisionIsFullHistory` | internal/controlplane/adminapi/loginlimit.go:52-84 | for calls in time order and IPs without a bar the decision is the full-history rule's |
| `LoginLimiter.WindowsAreBounded` | internal/controlplane/adminapi/loginlimit.go:52-84 | the full-history rule never logs more hits of a key in a window than its limit |
| `LoginLimiter.Serve` | internal/controlplane/adminapi/loginlimit.go:52-84 | a limiter object asked once for each attempt and failure takes the full-history decision every time, and no window holds more admitted calls of a key than its limit |
| `LoginLimiter.BarInIpCollides` | internal/controlplane/adminapi/loginlimit.go:74-84 | an attempt from an IP text with a bar can count as a failure of another pair |
| `LoginLimiter.LoginLimiter.ReportBlock` | internal/controlplane/adminapi/loginlimit.go:86-103 | old reports are forgotten, and a denial is reported when its key has no report in the window |
| `LoginLimiter.ReportIsFullHistory` | internal/controlplane/adminapi/loginlimit.go:86-103 | in time order a denial is reported exactly when no report of its key lies in the window before it |
| `LoginLimiter.ReportsAreSpaced` | internal/controlplane/adminapi/loginlimit.go:86-103 | two reports of a key lie at least a window apart |
| `ResetLimiter.ResetRateLimiter.AllowSend` | internal/controlplane/adminapi/resetratelimit.go:58-79 | decision, both lists and the last send are those of the step on values, the account-denied path included |
| `ResetLimiter.WindowsAreBounded` | internal/controlplane/adminapi/resetratelimit.go:58-91 | in time order no window holds more than maxPerIP sends from an IP or maxPerAccount under an account key |
| `ResetLimiter.PairsAreBounded` | internal/controlplane/adminapi/resetratelimit.go:58-91 | the same for every IP and username, whatever characters they hold |
| `ResetLimiter.SendsAreSpaced` | internal/controlplane/adminapi/resetratelimit.go:58-63 | sends to one username lie at least minInterval apart |
| `ResetLimiter.Serve` | internal/controlplane/adminapi/resetratelimit.go:58-91 | the sends a limiter object lets through respect the IP limit and the pair limit in every window and the interval between sends to a username |
| `ResetExact.HarmlessIff` | internal/controlplane/adminapi/resetratelimit.go:64-74 | compacting a list in time order without storing it keeps its live hits exactly when all of it was live or none |
| `ResetExact.EvenCompacted` | internal/controlplane/adminapi/resetratelimit.go:64-74 | compacting without storing keeps every count from the cutoff on exactly when no live hit stands behind the place where the live ones end up |
| `ResetExact.EvenStep` | internal/controlplane/adminapi/resetratelimit.go:58-79 | one more call keeps every IP's count exact if and only if it is not an account denial with such a hit |
| `ResetExact.FollowsIffCounted` | internal/controlplane/adminapi/resetratelimit.go:58-91 | after any calls in time order, the limiter answers every continuation like the full-history rule, up to its first harmful account denial, if and only if for each IP and each cutoff from the current window's start on the stored list counts exactly the sends |
| `ResetExact.Exposed` | internal/controlplane/adminapi/resetratelimit.go:58-91 | a list that counts too much is found out: fill it up with sends to new usernames, and the next call is refused although the rule admits it |
| `ResetExact.DecisionIsFullHistory` | internal/controlplane/adminapi/resetratelimit.go:58-91 | as long as no call was denied for the account, by the full history, while the IP had one undropped send outside the window and one inside, every answer and its reason are the full-history rule's |
| `ResetExact.FullHistoryIff` | internal/controlplane/adminapi/resetratelimit.go:58-91 | after calls that did not disturb, one more call keeps the limiter on the rule for every such continuation if and only if it does not disturb: a condition on the calls and their answers alone |
| `ResetLimiter.AccountDenialOverRefuses` | internal/controlplane/adminapi/resetratelimit.go:64-74 | five calls after which a send is refused with two sends in the window and a limit of three |
| `Federation.FindVerifiedAnchor` | internal/federation/federation.go:101-109 | the loop finds a verified anchor exactly when there is one |
| `Federation.Lifecycle.LoadLocked` | internal/federation/federation.go:195-208 | the hot map first, then the store, only within the tenant; what the store had is kept hot |
| `Federation.Lifecycle.DiscoverRelationship` | internal/federation/federation.go:216-230 | a candidate with version 1, refused when the relationship exists |
| `Federation.Lifecycle.RejectRelationship` | internal/federation/federation.go:232-254 | a candidate or pending relationship becomes pending, one version on |
| `Federation.Lifecycle.ActivateRelationship` | internal/federation/federation.go:269-297 | refused without verified anchor or grants or on another version; otherwise active, one version on |
| `Federation.Lifecycle.SuspendRelationship` | internal/federation/federation.go:299-317 | suspended, one version on, unless revoked |
| `Federation.Lifecycle.ReviewMaterialChange` | internal/federation/federation.go:353-377 | a material change makes the relationship pending, one version on; without one nothing changes |
| `Federation.RunKeeps` | internal/app/governance.go:144-253 | every interleaving of reads, discoveries, reviews and suspensions of one tenant keeps the invariant, store failures included |
| `Federation.ActiveIsTrusted` | internal/app/governance.go:177-253 | an active relationship has a verified anchor, a project grant and a capability grant |
| `Federation.VersionsIncrease` | internal/federation/federation.go:210-317 | a relationship stays the same or is replaced by a strictly newer version |
| `Federation.StaleApprovalIsRefused` | internal/app/governance.go:228-253 | an approval built on a copy read before another transition is refused and changes nothing |
| `Federation.Serve` | internal/app/governance.go:144-253 | a lifecycle object that serves any sequence of admin events ends where the run does, and everything active in it is sound |
| `Federation.OtherTenantReplaces` | internal/federation/federation.go:195-230 | ids are shared: whatever the vault holds, a discovery by another tenant hides the relationship of the same id, and the in-memory store loses it |
| `Federation.UpsertIff` | internal/platform/storage/sqlrepo/federationstore.go:20-50 | a Put keeps the SQL table answering as the map does if and only if it does not replace another tenant's relationship |
| `Federation.OtherTenantIsServed` | internal/platform/storage/sqlrepo/federationstore.go:25-50 | when it does, the first tenant is given the other tenant's relationship, and the other tenant none |
| `FederationRuns.ApprovalIff` | internal/app/governance.go:228-253 | in every run an approval takes effect if and only if the relationship is still what the admin read, an anchor is verified and there are grants of both kinds; it makes active what was read, with the supplied grants or those read, one version on, and otherwise changes nothing |
| `FederationRuns.RejectionIff` | internal/federation/federation.go:232-254 | a rejection takes effect exactly on a candidate or a relationship under review, which goes back to review |
| `FederationRuns.TransitionsAre` | internal/federation/federation.go:216-377 | a discovery, a material change and a stop leave exactly their transition, change no grant and no anchor, and leave every other relationship alone |
| `FederationRuns.VersionCountsChanges` | internal/federation/federation.go:210-317 | a version is the number of changes: one more at each, from one |
| `FederationRuns.ActiveWasApproved` | internal/app/governance.go:177-253 | what is active was so in the store at the start, or an approval of the run made it so |
| `FederationRuns.StoreFollows` | internal/federation/federation.go:210-215 | while the store answers, a fresh lifecycle over the store shows what the running one shows |
| `FederationRuns.RefusalsAreTrue` | internal/federation/federation.go:216-377 | each refusal names the reason that holds |
| `Approval.Service.Create` | internal/controlplane/approval/approval.go:102-118 | a pending request with the approvers it came with, refused without requester or action |
| `Approval.Service.Approve` | internal/controlplane/approval/approval.go:121-159 | the approval rule on the stored request: pending, verified, not the requester, not twice, two when dual |
| `Approval.Service.Reject` | internal/controlplane/approval/approval.go:162-187 | the rejection rule on the stored request |
| `Approval.RunKeeps` | internal/controlplane/approval/approval.go:121-187 | every interleaving of the reads and writes of many deciders keeps requests and copies sound |
| `Approval.ApprovedIsSound` | internal/controlplane/approval/approval.go:102-187 | a request stored as approved lists distinct approvers, none of them the requester, at least one, and two when dual, if it was created with distinct approvers without the requester |
| `Approval.GivenApproversCount` | internal/controlplane/approval/approval.go:102-118 | created with its requester among the approvers, a request can be approved |
| `Approval.OpeningIff` | internal/controlplane/approval/approval.go:102-187 | whatever happened before, a new request stays sound in every continuation if and only if it was created with distinct approvers without the requester; otherwise anybody else approves it in two steps |
| `Approval.RejectionIsOverwritten` | internal/platform/storage/sqlrepo/approvalstore.go:57-74 | a rejection becomes an approval when a decider with an older copy writes after it |
| `Approval.DecidedStays` | internal/controlplane/approval/approval.go:121-187 | a decided request of which nobody holds a pending copy stays as decided for good |
| `Approval.PendingCopyOverwrites` | internal/platform/storage/sqlrepo/approvalstore.go:57-74 | while somebody holds a pending copy, one decision of an eligible actor changes the request |
| `Approval.Serve` | internal/controlplane/approval/approval.go:102-187 | a service used by one decider at a time is a run of the deciders in which nothing lies between read and write; what it stores is sound |
| `Approval.DecisionIff` | internal/controlplane/approval/approval.go:121-187 | in any run a decision on the request as it stands takes effect if and only if it is pending and the actor is verified, not the requester and, to approve, not yet an approver; it leaves exactly that decision, and a refusal names the reason |
| `Approval.DecidersAreReal` | internal/controlplane/approval/approval.go:121-187 | in every interleaving each approver of a request was named when it was opened or approved it, verified, and a rejected request names somebody who rejected it, verified |
| `PolicyPublish.RunKeeps` | internal/guardrail/policy.go:105-148 | overlapping publishes, with failures of store and audit, keep the invariant |
| `PolicyPublish.VersionsAreConsecutive` | internal/guardrail/policy.go:105-148 | from an empty registry a tenant's active policies are versions 1, 2, 3, ..., each stored and audited before it became active |
| `PolicyPublish.PublishAlone` | internal/guardrail/policy.go:105-148 | in any run a publish that store and audit accept and nobody overtakes makes its rules active, one version and one epoch on |
| `PolicyPublish.FailedIsDropped` | internal/guardrail/policy.go:105-148 | one that the store or the audit refuses, or that another overtook, is dropped and changes nothing |
| `PolicyPublish.RecordsAreAnswered` | internal/guardrail/policy.go:105-148 | nothing is stored or audited but a publish that was asked about and answered with yes |

## Left out

- `OpenApiDocument.CompareOpenApi`: does not model the order SortViolations gives the reports nor their detail text, because the results are about which rules are broken.
- OpenApiSoundness: the meaning of keywords the comparator never reads is any condition on the document, the schema and the value, the same in both documents. References whose siblings are more than annotations, references that lead to no schema, and, for the converse of silence, a schema written in place on one side and by reference on the other are outside the theorems; SharedKeyHidesChange shows why the last is.
- OpenApiClients: a request has credentials or has none; which ones a scheme accepts is not modelled. Parameters and bodies are read through the references as the comparator resolves them, parameters shared by a path item are not read, and of two parameters with one key the last counts.
- Loading and parsing of the documents, and the command line of the gate.
- `A2ARelay.RunKeeps`: admission, approval and the connector are events with any outcome; task ids are the ids of the requests that created the rows, never reused; requests without a durable store are not modelled.
- `SemanticStore.MemorySemanticStore.Put`: does not model the map from keys to list elements beside the list; the same structure is proved for `LruStore.MemoryStore`. One clock reading serves a whole call.
- `Cosine.ScoreBounded`: arithmetic is over reals with an exact square root, so rounding and overflow of floats are not modelled.
- The Redis and SQL variants of the caches, and hashing of cache keys.
- `Singleton.OneJobAtATime`: lease identifiers are fresh numbers where the store draws 16 random bytes.
- Drain: AddInflight, which counts a request without the gate, has no caller in the program and no event; the error the caller's context gives BeginDrain is not returned.
- `StreamGuard.Writer.Write`: does not model the asynchronous third layer nor security events; white space between words is ASCII white space.
- `Guardrail.Evaluate`: regular expressions are functions, and content hashes are not part of a match.
- `ConfigDiff.Flatten`: the JSON document stands for the encoded configuration, and a scalar for the text json.Marshal gives it, which is one to one on decoded values; lower-casing of paths is that of ASCII.
- `HitStore.Append`: a larger copy has one more than twice the length; growth policy beyond having room is not modelled.
- `ResetExact.FollowsIffCounted`: continuations are followed up to their first harmful account denial, because such a denial makes even an exact list inexact; without that limit the rule fails from the empty limiter on (`ResetLimiter.AccountDenialOverRefuses`).
- `Federation.RunKeeps`: approval through Review and Revoke are not reachable from the admin operations and have no event; nothing is claimed about revoked relationships. A failing store leaves the hot map ahead of it, and a restart is not modelled.
- `PolicyPublish.RunKeeps`: loading the active policy from the store while publishes are under way.
- HTTP handlers, routing, console, SDKs, mail, secrets, metrics, budgets, quotas, the seven-stage pipeline, credential pools and circuit breakers: presentation, foreign code or easy members.
