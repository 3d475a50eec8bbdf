# sb-commons in Dafny

A Dafny model of the reactive web helper library `sb-commons-ms`. The model covers three parts.

- **Traceability.** The request header extractor builds a trace map from the inbound headers: the application id, the joined transaction id and a fresh request id. The response header compositor splits each well-known trace value on the list separator and appends the pieces to the response headers. The web filter extracts the trace data and reads the clock when a request arrives. In its before-commit hook it stores the elapsed time under the duration key and runs the compositor.
- **Error mapping.** `ErrorResponse` is built by two constructors, and `ErrorResponseEntity` has five factories. The global controller advice maps six exception types to 409, 400, 404 and 500.
- **CRUD helper.** Create, find, list, update and delete run over a repository, modelled as a map from guid to entity.

Files and modules:

| file | module | models |
|---|---|---|
| `wrappers.dfy` | `Wrappers` | `Option` (a nullable value), `Result` (a value or an error signal) |
| `text.dfy` | `Text` | Kotlin `split`, `joinToString`, `Long.toString`, 64-bit `Long` |
| `http.dfy` | `Http` | `HttpStatus` (the four statuses the library produces, and any other by its code), the header multimap, a response whose headers change in place |
| `datafill.dfy` | `Datafill` | the traceability configuration record |
| `extractor.dfy` | `TraceabilityRequestHeaderExtractor` | `invoke`, `extract` |
| `compositor.dfy` | `TraceabilityResponseHeaderCompositor` | `invoke` as nested loops, `traceValue` |
| `webfilter.dfy` | `TraceabilityWebFilter` | `filter`, the `beforeCommit` hook, as a class holding one request's trace state |
| `error_response.dfy` | `ErrorResponses` | `ErrorResponse`, `ErrorResponseEntity` and its factories |
| `global_error_handler.dfy` | `GlobalErrorHandler` | the six `forumException` handlers |
| `crud_service.dfy` | `CrudServiceUtils` | `CrudServiceUtilsImpl` as a class over a stored map |

Inputs that the source reads from the environment are parameters of the model:

- `UUID.randomUUID().toString()` is the `requestId` argument.
- `System.currentTimeMillis()` is the `clock` argument of the constructor and of the commit step.
- `Instant.now()` is the `now` argument.
- The result of `chain.filter(exchange)` is the `downstream` argument of `Filter`.
- The records that `fnRetrieve` returns are the `retrieved` argument of `ListEntities`.

Notes on the model:

- **Round trip.** For a separator of two or more characters, `split(join(vs))` can differ from `vs` even when no value contains the separator. `Text.MultiCharSeparatorNotLossless` shows this with separator `"aa"` and values `["a", ""]`, which come back as `["", "a"]`. `Text.SplitJoin` therefore assumes each value is `Separable`: the separator must not occur in the value followed by all but the last character of the separator. For a one-character separator this just means the value does not contain that character (`Text.SingleCharSeparable`).
- **Piece count.** `ComposeValueCount` and `Text.SplitCountSingleChar` are stated for a one-character separator because, for a longer one, occurrences can overlap. With separator `"aa"`, the string `"aaa"` holds two occurrences, yet it splits into two pieces (`""` and `"a"`), not three.
- **Transaction id.** The code puts the transaction-id entry whenever the request headers hold that key, even with an empty value list. That entry is then `""`.
- **Duration.** The duration is the `Long` difference of two wall-clock readings, and that subtraction wraps around modulo 2^64. `DurationText` is a minus sign followed by digits exactly when that wrapped difference is negative. `DurationIsDecimal` proves that when 0 <= start <= now, the text is all digits and denotes now - start. Outside that range, wrap-around can give either sign. For example, a start of `Long.MAX_VALUE` and a commit reading of `Long.MIN_VALUE` give "1", although the commit reading is earlier.
- **Appending.** The compositor appends to values already on the response. With a multi-valued transaction id, a trace key can therefore carry several values on the response.
- **Duplicates.** In `createEntity`, the duplicate-entity error also passes through `handleServiceError`, like every other error. The model applies the handler function to it.
- **Failing `fnEntity`.** In `updateEntity`, `map(fnEntity)` turns an exception thrown by `fnEntity` into an error signal. The model's `fnEntity` therefore returns a `Result`; a failure skips the save and passes through the handler.
- **Empty results.** `fnModify` returns an `Outcome`: a value, an empty completion, or an error. An empty completion passes through `createEntity`, `findEntityByGuid` and `updateEntity` as `Success(None)`. In `listEntities`, an item whose `fnModify` completes empty emits nothing (`Outputs`).
- **Filter order.** The order of the filter's steps and of the CRUD repository calls is recorded in a ghost `steps` log. Each statement that takes a step appends its entry.

## Model

| member | source | states |
|---|---|---|
| `Text.IndexOf` | sb-commons-ms/src/main/kotlin/io/jrb/labs/commons/traceability/TraceabilityResponseHeaderCompositor.kt:50 | the result is the first occurrence of the separator at or after the start index, or none exists |
| `Text.Split` | sb-commons-ms/src/main/kotlin/io/jrb/labs/commons/traceability/TraceabilityResponseHeaderCompositor.kt:50 | there is always at least one piece; the pieces are fixed by the leftmost occurrences `IndexOf` finds, and `JoinSplit` and `SplitPiecesSeparatorFree` state what they are |
| `Text.Join` | sb-commons-ms/src/main/kotlin/io/jrb/labs/commons/traceability/TraceabilityRequestHeaderExtractor.kt:46 | no values join to the empty string; otherwise the join starts with the first value |
| `Text.JoinLength` | sb-commons-ms/src/main/kotlin/io/jrb/labs/commons/traceability/TraceabilityRequestHeaderExtractor.kt:46 | the join of n >= 1 values is as long as the values together plus n - 1 separators |
| `Text.JoinSplit` | sb-commons-ms/src/main/kotlin/io/jrb/labs/commons/traceability/TraceabilityResponseHeaderCompositor.kt:50 | joining the pieces of a split with the separator gives back the original value |
| `Text.SplitPiecesSeparatorFree` | sb-commons-ms/src/main/kotlin/io/jrb/labs/commons/traceability/TraceabilityResponseHeaderCompositor.kt:50 | no piece of a split contains the separator |
| `Text.SplitJoin` | sb-commons-ms/src/main/kotlin/io/jrb/labs/commons/traceability/TraceabilityRequestHeaderExtractor.kt:46 | splitting the join of a non-empty list of separable values gives back exactly that list, in order |
| `Text.SingleCharSeparable` | sb-commons-ms/src/main/kotlin/io/jrb/labs/commons/traceability/TraceabilityRequestHeaderExtractor.kt:46 | for a one-character separator, a value is separable iff it does not contain that character |
| `Text.MultiCharSeparatorNotLossless` | sb-commons-ms/src/main/kotlin/io/jrb/labs/commons/traceability/TraceabilityRequestHeaderExtractor.kt:46 | with separator "aa", the values "a" and "" contain no separator, yet join to "aaa", which splits to "" and "a" |
| `Text.SplitCountSingleChar` | sb-commons-ms/src/main/kotlin/io/jrb/labs/commons/traceability/TraceabilityResponseHeaderCompositor.kt:50 | a split on a one-character separator has one more piece than that character has occurrences |
| `Text.DigitsRoundTrip` | sb-commons-ms/src/main/kotlin/io/jrb/labs/commons/traceability/TraceabilityWebFilter.kt:67 | parsing the decimal text of a natural number gives that number back |
| `Text.Digits` | sb-commons-ms/src/main/kotlin/io/jrb/labs/commons/traceability/TraceabilityWebFilter.kt:67 | the decimal text is non-empty, all digits, and has no leading zero |
| `Text.WrapLong` | sb-commons-ms/src/main/kotlin/io/jrb/labs/commons/traceability/TraceabilityWebFilter.kt:66 | Long subtraction: the result is congruent to the exact difference modulo 2^64 and equals it when it is in range |
| `Text.LongToString` | sb-commons-ms/src/main/kotlin/io/jrb/labs/commons/traceability/TraceabilityWebFilter.kt:67 | the text is non-empty and starts with a minus sign iff the number is negative; the rest is all digits and parses back to the magnitude |
| `Http.AddHeader` | sb-commons-ms/src/main/kotlin/io/jrb/labs/commons/traceability/TraceabilityResponseHeaderCompositor.kt:44 | adding a header appends one value under its key, creating the key if needed; other keys keep their values |
| `Http.HttpResponse.Add` | sb-commons-ms/src/main/kotlin/io/jrb/labs/commons/traceability/TraceabilityResponseHeaderCompositor.kt:44 | the response's headers become those of `AddHeader` on the old headers, in place |
| `TraceabilityRequestHeaderExtractor.ExtractedValue` | sb-commons-ms/src/main/kotlin/io/jrb/labs/commons/traceability/TraceabilityRequestHeaderExtractor.kt:45-50 | a value is produced iff the request carries the key |
| `TraceabilityRequestHeaderExtractor.TraceData` | sb-commons-ms/src/main/kotlin/io/jrb/labs/commons/traceability/TraceabilityRequestHeaderExtractor.kt:37-50 | the keys are exactly application id, request id, and transaction id iff the request carries it; the request id maps to the fresh value; the application id maps to the name and the transaction id to the joined inbound values unless a later put overrides them |
| `TraceabilityRequestHeaderExtractor.Invoke` | sb-commons-ms/src/main/kotlin/io/jrb/labs/commons/traceability/TraceabilityRequestHeaderExtractor.kt:37-43 | the three sequential puts build exactly the trace data above |
| `TraceabilityRequestHeaderExtractor.OnlyTransactionHeaderMatters` | sb-commons-ms/src/main/kotlin/io/jrb/labs/commons/traceability/TraceabilityRequestHeaderExtractor.kt:40 | two requests that agree on the transaction-id header give the same trace data |
| `TraceabilityRequestHeaderExtractor.TransactionIdRecoverable` | sb-commons-ms/src/main/kotlin/io/jrb/labs/commons/traceability/TraceabilityRequestHeaderExtractor.kt:46 | when the transaction-id and request-id keys differ and the request carries a non-empty list of separable transaction-id values, splitting the stored transaction id gives back that list |
| `TraceabilityResponseHeaderCompositor.TraceValue` | sb-commons-ms/src/main/kotlin/io/jrb/labs/commons/traceability/TraceabilityResponseHeaderCompositor.kt:49-51 | pieces exist iff the key is in the trace data; then there is at least one piece, none contains the separator, and they join back to the stored value |
| `TraceabilityResponseHeaderCompositor.Composed` | sb-commons-ms/src/main/kotlin/io/jrb/labs/commons/traceability/TraceabilityResponseHeaderCompositor.kt:35-47 | the headers after `invoke` have the old keys plus exactly the well-known keys the trace data holds |
| `TraceabilityResponseHeaderCompositor.Invoke` | sb-commons-ms/src/main/kotlin/io/jrb/labs/commons/traceability/TraceabilityResponseHeaderCompositor.kt:35-47 | the nested loops leave the response headers equal to the composition of the old headers with the trace data |
| `TraceabilityResponseHeaderCompositor.AddEach` | sb-commons-ms/src/main/kotlin/io/jrb/labs/commons/traceability/TraceabilityResponseHeaderCompositor.kt:43-45 | the inner loop adds one header line per piece, in order |
| `TraceabilityResponseHeaderCompositor.ApplyLinesEffect` | sb-commons-ms/src/main/kotlin/io/jrb/labs/commons/traceability/TraceabilityResponseHeaderCompositor.kt:44 | adding lines appends under each key exactly the values the lines carry for it, and adds exactly the keys the lines name |
| `TraceabilityResponseHeaderCompositor.LinesForEffect` | sb-commons-ms/src/main/kotlin/io/jrb/labs/commons/traceability/TraceabilityResponseHeaderCompositor.kt:42-46 | the lines for a key list carry, per key, the pieces of each equal listed key that the trace data holds; they name exactly the listed keys it holds |
| `TraceabilityResponseHeaderCompositor.ComposedEffect` | sb-commons-ms/src/main/kotlin/io/jrb/labs/commons/traceability/TraceabilityResponseHeaderCompositor.kt:35-47 | each key keeps its old values followed by its contribution; a key is present afterwards iff it was before or it is a well-known key held by the trace data |
| `TraceabilityResponseHeaderCompositor.ComposePreservesExisting` | sb-commons-ms/src/main/kotlin/io/jrb/labs/commons/traceability/TraceabilityResponseHeaderCompositor.kt:44 | existing headers stay, and their old values are a prefix of the new ones |
| `TraceabilityResponseHeaderCompositor.ComposeLeavesOtherKeys` | sb-commons-ms/src/main/kotlin/io/jrb/labs/commons/traceability/TraceabilityResponseHeaderCompositor.kt:37-43 | a key that is not well-known, or is absent from the trace data, is left exactly as it was |
| `TraceabilityResponseHeaderCompositor.ComposeDistinctKeys` | sb-commons-ms/src/main/kotlin/io/jrb/labs/commons/traceability/TraceabilityResponseHeaderCompositor.kt:42-45 | with distinct key names, a held well-known key gains exactly the split pieces of its value, appended in split order |
| `TraceabilityResponseHeaderCompositor.ComposeValueCount` | sb-commons-ms/src/main/kotlin/io/jrb/labs/commons/traceability/TraceabilityResponseHeaderCompositor.kt:50 | with distinct key names and a one-character separator, a well-known key held by the trace data gains one value more than its value has separators |
| `TraceabilityResponseHeaderCompositor.ComposeOrder` | sb-commons-ms/src/main/kotlin/io/jrb/labs/commons/traceability/TraceabilityResponseHeaderCompositor.kt:37-42 | lines are written key by key: application id, transaction id, request id, duration |
| `TraceabilityResponseHeaderCompositor.ContributionOfWellKnownKeys` | sb-commons-ms/src/main/kotlin/io/jrb/labs/commons/traceability/TraceabilityResponseHeaderCompositor.kt:37-41 | the values gained under a key are the contributions of the four keys in their fixed order |
| `TraceabilityWebFilter.Elapsed` | sb-commons-ms/src/main/kotlin/io/jrb/labs/commons/traceability/TraceabilityWebFilter.kt:66 | the elapsed time is congruent to now minus start modulo 2^64, and equals it when that difference fits in a `Long` |
| `TraceabilityWebFilter.DurationText` | sb-commons-ms/src/main/kotlin/io/jrb/labs/commons/traceability/TraceabilityWebFilter.kt:66-67 | the stored text starts with a minus sign iff the elapsed time is negative; its digits parse back to the elapsed time's magnitude |
| `TraceabilityWebFilter.WithDuration` | sb-commons-ms/src/main/kotlin/io/jrb/labs/commons/traceability/TraceabilityWebFilter.kt:67 | the duration entry is set, overwriting any earlier value, and no other entry changes |
| `TraceabilityWebFilter.RequestTrace.constructor` | sb-commons-ms/src/main/kotlin/io/jrb/labs/commons/traceability/TraceabilityWebFilter.kt:59-62 | the trace data is the extractor's output; the start time is the clock read after extraction |
| `TraceabilityWebFilter.RequestTrace.BeforeCommit` | sb-commons-ms/src/main/kotlin/io/jrb/labs/commons/traceability/TraceabilityWebFilter.kt:63-74 | the duration entry becomes the text of now minus start; then the response headers are the composition with the updated trace data; the steps are read clock, store duration, compose |
| `TraceabilityWebFilter.Filter` | sb-commons-ms/src/main/kotlin/io/jrb/labs/commons/traceability/TraceabilityWebFilter.kt:58-77 | the response headers are untouched, the downstream result is returned unchanged, and the steps are extract, read start time, delegate |
| `TraceabilityWebFilter.DurationIsDecimal` | sb-commons-ms/src/main/kotlin/io/jrb/labs/commons/traceability/TraceabilityWebFilter.kt:62-67 | if the commit reading is not earlier than a non-negative start, the duration text is all digits and denotes now minus start |
| `TraceabilityWebFilter.DurationHeaderWritten` | sb-commons-ms/src/main/kotlin/io/jrb/labs/commons/traceability/TraceabilityWebFilter.kt:66-71 | since the duration is stored before composition, the response always gains a duration value |
| `TraceabilityWebFilter.DurationHeaderExact` | sb-commons-ms/src/main/kotlin/io/jrb/labs/commons/traceability/TraceabilityWebFilter.kt:66-71 | with distinct keys, a separator holding a non-digit and a start not after the commit reading, the duration header gains exactly the decimal elapsed time |
| `TraceabilityWebFilter.FilterHeaders` | sb-commons-ms/src/main/kotlin/io/jrb/labs/commons/traceability/TraceabilityWebFilter.kt:59-71 | with distinct key names, across a whole request, the application and request ids gain their split values; the transaction id gains the split join of the inbound values, or nothing when the request lacks it |
| `TraceabilityWebFilter.FilterRoundTrip` | sb-commons-ms/src/main/kotlin/io/jrb/labs/commons/traceability/TraceabilityWebFilter.kt:59-71 | on an empty response, with distinct key names, a one-character separator that the values avoid, and a transaction-id header that, when present, carries at least one value: the application id is the configured name, the request id is the fresh value, and the transaction id is present iff it came in, with the inbound values |
| `ErrorResponses.WithBindingErrors` | sb-commons-ms/src/main/kotlin/io/jrb/labs/commons/resource/ErrorResponse.kt:41-42 | the code is the status's numeric value; the message, timestamp and binding errors are kept as given |
| `ErrorResponses.WithMessage` | sb-commons-ms/src/main/kotlin/io/jrb/labs/commons/resource/ErrorResponse.kt:44-45 | equal to the three-argument constructor with no binding errors |
| `ErrorResponses.EntityOf` | sb-commons-ms/src/main/kotlin/io/jrb/labs/commons/resource/ErrorResponse.kt:49 | the entity's HTTP status is the body's status |
| `ErrorResponses.Conflict` | sb-commons-ms/src/main/kotlin/io/jrb/labs/commons/resource/ErrorResponse.kt:53-54 | the named status `CONFLICT` (409) with a matching code; the message is carried unchanged; no binding errors |
| `ErrorResponses.BadRequest` | sb-commons-ms/src/main/kotlin/io/jrb/labs/commons/resource/ErrorResponse.kt:56-57 | the named status `BAD_REQUEST` (400) with a matching code; the message is carried unchanged; no binding errors |
| `ErrorResponses.BadRequestWithBindingErrors` | sb-commons-ms/src/main/kotlin/io/jrb/labs/commons/resource/ErrorResponse.kt:59-60 | the named status `BAD_REQUEST` (400) with a matching code; the message and binding errors are carried unchanged |
| `ErrorResponses.NotFound` | sb-commons-ms/src/main/kotlin/io/jrb/labs/commons/resource/ErrorResponse.kt:62-63 | the named status `NOT_FOUND` (404) with a matching code; the message is carried unchanged; no binding errors |
| `ErrorResponses.ServerError` | sb-commons-ms/src/main/kotlin/io/jrb/labs/commons/resource/ErrorResponse.kt:65-66 | the named status `INTERNAL_SERVER_ERROR` (500) with a matching code; the message is carried unchanged; no binding errors |
| `ErrorResponses.BadRequestOverloads` | sb-commons-ms/src/main/kotlin/io/jrb/labs/commons/resource/ErrorResponse.kt:56-60 | the two bad-request factories agree iff the binding errors are empty |
| `GlobalErrorHandler.ForumException` | sb-commons-ms/src/main/kotlin/io/jrb/labs/commons/resource/GlobalErrorHandler.kt:41-57 | duplicate maps to Conflict (409); invalid, patch-invalid and verify map to 400; not-found maps to 404; service maps to 500; other types are not handled; the message passes unchanged, binding errors are empty |
| `GlobalErrorHandler.ProducedStatuses` | sb-commons-ms/src/main/kotlin/io/jrb/labs/commons/resource/GlobalErrorHandler.kt:41-57 | every answer carries one of the four named statuses 400, 404, 409 and 500, never another code; a status is produced iff it is one of those four |
| `CrudServiceUtils.ContextMessage` | sb-commons-ms/src/main/kotlin/io/jrb/labs/commons/service/CrudServiceUtilsImpl.kt:48 | the message is the fixed prefix, then the action, a space and the entity type |
| `CrudServiceUtils.ContextMessageNamesAction` | sb-commons-ms/src/main/kotlin/io/jrb/labs/commons/service/CrudServiceUtilsImpl.kt:48-77 | for one entity type, equal context messages mean equal actions, so each operation's message is distinct |
| `CrudServiceUtils.Outputs` | sb-commons-ms/src/main/kotlin/io/jrb/labs/commons/service/CrudServiceUtilsImpl.kt:67 | at most one output per item; `OutputsDelivered`, `DeliveredOutputs` and `OutputsInOrder` state what the outputs are |
| `CrudServiceUtils.OutputsDelivered` | sb-commons-ms/src/main/kotlin/io/jrb/labs/commons/service/CrudServiceUtilsImpl.kt:67 | every output is the value some item's modify call delivers |
| `CrudServiceUtils.DeliveredOutputs` | sb-commons-ms/src/main/kotlin/io/jrb/labs/commons/service/CrudServiceUtilsImpl.kt:67 | every value an item's modify call delivers is an output |
| `CrudServiceUtils.OutputsInOrder` | sb-commons-ms/src/main/kotlin/io/jrb/labs/commons/service/CrudServiceUtilsImpl.kt:67 | when every modify call delivers a value, the outputs are those values, one per item, in item order |
| `CrudServiceUtils.ModifyEach` | sb-commons-ms/src/main/kotlin/io/jrb/labs/commons/service/CrudServiceUtilsImpl.kt:67 | the modify calls over the retrieved items succeed iff every call succeeds, and then the outputs are `Outputs` of the items; otherwise the error is that of a failing call |
| `CrudServiceUtils.CrudService.constructor` | sb-commons-ms/src/main/kotlin/io/jrb/labs/commons/service/CrudServiceUtilsImpl.kt:36-40 | the entity type defaults to the entity class's simple name |
| `CrudServiceUtils.CrudService.Recover` | sb-commons-ms/src/main/kotlin/io/jrb/labs/commons/service/CrudServiceUtilsImpl.kt:48 | successes pass through; every error is replaced by the handler's result for the context message and that error |
| `CrudServiceUtils.CrudService.CreateEntity` | sb-commons-ms/src/main/kotlin/io/jrb/labs/commons/service/CrudServiceUtilsImpl.kt:42-49 | a stored guid gives the handled duplicate-entity error, leaves the store alone and never runs the modify function; otherwise the entity is stored, then the modify function's handled outcome is returned, an empty completion included |
| `CrudServiceUtils.CrudService.DeleteEntity` | sb-commons-ms/src/main/kotlin/io/jrb/labs/commons/service/CrudServiceUtilsImpl.kt:51-56 | a missing guid gives the handled not-found error and deletes nothing; otherwise exactly that record is removed |
| `CrudServiceUtils.CrudService.FindEntityByGuid` | sb-commons-ms/src/main/kotlin/io/jrb/labs/commons/service/CrudServiceUtilsImpl.kt:58-63 | the store is unchanged; a missing guid gives the handled not-found error; otherwise the result is the modify function's handled outcome for the record, an empty completion included |
| `CrudServiceUtils.CrudService.UpdateEntity` | sb-commons-ms/src/main/kotlin/io/jrb/labs/commons/service/CrudServiceUtilsImpl.kt:71-78 | a missing guid gives the handled not-found error and runs neither function. Otherwise the entity function runs. If it fails, nothing is saved, the modify function does not run, and its handled error is returned. If its result has the guid of another stored record, the save is an integrity violation: nothing is stored, the modify function does not run, and the handled violation is returned. Otherwise the result is saved in place of the old record, and then the modify function runs |
| `CrudServiceUtils.CrudService.ListEntities` | sb-commons-ms/src/main/kotlin/io/jrb/labs/commons/service/CrudServiceUtilsImpl.kt:65-69 | succeeds iff retrieval and every modify call succeed, giving the delivered values as a multiset, with nothing for an empty completion; otherwise it gives the handled error of a failing step |
| `CrudServiceUtils.CrudErrorStatus` | sb-commons-ms/src/main/kotlin/io/jrb/labs/commons/resource/GlobalErrorHandler.kt:41-51 | a duplicate error is answered with the named status `CONFLICT` (409) and a not-found error with `NOT_FOUND` (404); an integrity violation is not handled by the advice |

## Left out

- Reactor scheduling, and when Spring runs the `beforeCommit` callback. The hook is an explicit `BeforeCommit` step, called once after `Filter`. A request cancelled before commit is the case where it is never called.
- Logging of the inbound trace data (`TraceabilityWebFilter.kt:60`).
- Clock, UUID and `Instant.now()` calls are parameters. Clock monotonicity is not assumed.
- Within a request, the model states only that the request id is the given fresh value. Whether that value is a syntactically valid UUID, or unique across requests, is not modelled.
- HTTP header keys are compared exactly. Spring compares them without regard to case.
- The order of keys inside the response header map is not modelled. The order of lines written is modelled (`ComposeOrder`), as is the order of values under each key.
- Kotlin `split` with an empty delimiter is not modelled. Every operation that splits requires a non-empty separator.
- `handleServiceError` is not part of this model. It is an arbitrary function from a context message and an error to an error, applied to every error.
- The `EntityRepository` interface is not part of this model. Its behaviour is assumed as follows:
  - `findByGuid` looks the guid up in the map.
  - On create, `save` fails with a data-integrity violation exactly when the guid is already stored.
  - On update, `save` replaces the record found. It fails with an integrity violation when the new guid belongs to another record.
  - `delete` removes the record.
  - Storage failures of other kinds, and a repository that rewrites the saved entity, are not modelled.
- The exception class hierarchy is not part of this model. Exceptions are a flat set of kinds, and Spring's choice of the most specific handler is not modelled. The messages of the duplicate-entity and not-found exceptions are not modelled (`CrudErrorStatus` takes the message as a parameter).
- JSON serialisation of `ErrorResponse` and the HTTP transport.
- ListEntities: values are stated as a multiset, because `flatMap` does not keep order. For a failed listing, the items emitted before the error are not modelled. The model returns only the handled error of one failing item. A `retrieved` failure stands only for an error signalled by the `Flux` that `fnRetrieve()` returns. An exception thrown by the call `fnRetrieve()` itself (`CrudServiceUtilsImpl.kt:66`) happens before `onErrorResume` is attached, so it escapes `listEntities` without passing through `handleServiceError`. That case is not modelled.
- The extractor, the compositor and the filter each receive a `TraceabilityDatafill` of their own (`TraceabilityRequestHeaderExtractor.kt:34`, `TraceabilityResponseHeaderCompositor.kt:32`, `TraceabilityWebFilter.kt:38`). The model assumes that all three share one configuration record. `DurationHeaderWritten`, `DurationHeaderExact`, `FilterHeaders` and `FilterRoundTrip` rely on that: the filter's duration key and the compositor's key list come from the same record.
- A repository call that completes empty where the source does not handle it (`save` in `createEntity` and `updateEntity`) is not modelled. An empty `fnModify` is modelled.
- Thread-safety across concurrent requests is not modelled. Each `RequestTrace` object is one request's own state.
