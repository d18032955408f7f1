# Axon Framework: the in-memory event storage engine and its single-entry message streams

This project is a Dafny model of the in-memory `AsyncEventStorageEngine` of Axon Framework
(`AsyncInMemoryEventStorageEngine`), of the value objects callers hand to it
(`NoAppendCondition`, `StreamingCondition`) and of the smallest `MessageStream`
implementations with the entry record they carry (`FailedMessageStream`,
`SingleValueMessageStream`, `SimpleEntry`). It proves properties of the model.

The engine keeps a log: a map from global sequence position to tracked event.
- **Appending.** An append is checked against its append condition.
  - More than one index in the condition's criteria is refused (`tooManyIndices`).
  - With one index, any indexed event after the consistency marker whose indices match refuses
    the append (`consistencyMarkerSurpassed`). Otherwise every message is re-indexed with the
    criteria's index set.
  - The batch then lands at consecutive positions after the head, and the new head is returned.
- **Reading.** `source` reads `[start, end)`, with `end` defaulting to `Long.MAX_VALUE`. `stream`
  reads from a tracking token's own position on. Both filter by payload type and indices.
- **Tokens.** `tailToken`/`headToken` report the positions around the log, or `offset - 1` when it
  is empty. `tokenAt(at)` points just before the first event stamped at or after `at`.

The model is functional:
- The engine is `Engine(events, offset)`, a value.
- `appendEvents` returns an `AppendOutcome`: the next engine value and the `Result` the returned
  future completes with.
- Reads return `Result<seq<TrackedEvent>, Error>`.
- Failed futures and thrown exceptions are `Failure` values of one `Error` datatype.

Modules, one per concept:
- `Wrappers`, `Errors`: `Option`, `Result`, and the errors the core raises.
- `Criteria`, `Events`: the parts of `EventCriteria` and of event messages the engine consumes.
- `AppendConditions`, `StreamingConditions`: `NoAppendCondition`, `SourcingCondition`,
  `StreamingCondition` and tracking tokens.
- `Positions`: least and greatest elements of position sets and their ascending enumeration.
- `InMemoryEngine`: the engine's operations, each with its contract.
- `EngineLemmas`: properties that relate several operations.
- `EngineScenarios`: concrete append and read sequences.
- `MessageStreams`: `SimpleEntry`, `FailedMessageStream` and `SingleValueMessageStream`.

The source path prefix `eventsourcing/src/main/java/org/axonframework/eventsourcing/eventstore/`
holds the engine and the conditions. `messaging/src/main/java/org/axonframework/messaging/` holds
the streams.

## Model

| member | source | states |
|---|---|---|
| `InMemoryEngine.NewEngine` | eventsourcing/src/main/java/org/axonframework/eventsourcing/eventstore/AsyncInMemoryEventStorageEngine.java:75-90 | A new engine is empty and its log valid. Both tokens report `offset - 1`, with offset 0 for the single-argument constructor, while the append as written starts from head -1. |
| `InMemoryEngine.AppendEvents` | eventsourcing/src/main/java/org/axonframework/eventsourcing/eventstore/AsyncInMemoryEventStorageEngine.java:93-133 | The append as written, from head -1 on an empty log, meets the append promise. A failure leaves the engine unchanged. Too many indices fails with `TooManyIndices(n, 1)`. With one index it fails exactly when a matching indexed event sits after the consistency marker, and then with `ConsistencyMarkerSurpassed(marker)`. Without criteria it always succeeds. On success the batch is at `head+1..head+n`, every older entry is kept, each new entry is tracked at its own position, messages are re-indexed with exactly the criteria's indices when there are any and stored as given otherwise, and the new head is returned. |
| `InMemoryEngine.AppendEventsFromOffset` | eventsourcing/src/main/java/org/axonframework/eventsourcing/eventstore/AsyncInMemoryEventStorageEngine.java:84-101 | The corrected append. It meets the same promise with the head token as the starting head, so an empty log starts at `offset - 1`. |
| `InMemoryEngine.AppendAt` | eventsourcing/src/main/java/org/axonframework/eventsourcing/eventstore/AsyncInMemoryEventStorageEngine.java:95-131 | The append body, for any head at or past every stored key, meets the full append promise: the error cases, the conflict condition in both directions, placement and tagging. |
| `InMemoryEngine.ConflictAfter` | eventsourcing/src/main/java/org/axonframework/eventsourcing/eventstore/AsyncInMemoryEventStorageEngine.java:104-112 | The conflict the append refuses: some indexed event at a position past the consistency marker whose indices the condition's criteria match. When the criteria carry exactly one index, `AppendAt` fails with `ConsistencyMarkerSurpassed` exactly when it holds. Without indices the check is skipped, and with more than one the append fails with `TooManyIndices` first. |
| `InMemoryEngine.HeadAsWritten` | eventsourcing/src/main/java/org/axonframework/eventsourcing/eventstore/AsyncInMemoryEventStorageEngine.java:101 | The starting head bounds every stored position. It is a stored position when the log is non-empty and -1 when it is empty, whatever the offset. |
| `InMemoryEngine.PutEach` | eventsourcing/src/main/java/org/axonframework/eventsourcing/eventstore/AsyncInMemoryEventStorageEngine.java:120-131 | The loop's log has exactly the old keys plus `head+1..head+n`. Old entries outside that range are kept, and message `i` is tracked at `head+1+i`. |
| `InMemoryEngine.AsTrackedEventMessage` | eventsourcing/src/main/java/org/axonframework/eventsourcing/eventstore/AsyncInMemoryEventStorageEngine.java:136-140 | The tracked message carries the token's position and keeps the message's identity, payload type and timestamp. It is indexed exactly when the message was, with the same indices. |
| `InMemoryEngine.TagAll` | eventsourcing/src/main/java/org/axonframework/eventsourcing/eventstore/AsyncInMemoryEventStorageEngine.java:113-115 | Every message of the batch, in order, becomes its indexed form carrying the criteria's index set. |
| `Events.AsIndexedEvent` | eventsourcing/src/main/java/org/axonframework/eventsourcing/eventstore/AsyncInMemoryEventStorageEngine.java:114 | The indexed message carries exactly the given indices and keeps identifier, payload type and timestamp. |
| `InMemoryEngine.Match` | eventsourcing/src/main/java/org/axonframework/eventsourcing/eventstore/AsyncInMemoryEventStorageEngine.java:171-175 | An event matches when both its payload type and its indices match. `TypeMismatchExcluded`, `UnindexedNeedsIndexFreeCriteria` and `NoCriteriaMatchesEverything` state its consequences. |
| `InMemoryEngine.MatchingType` | eventsourcing/src/main/java/org/axonframework/eventsourcing/eventstore/AsyncInMemoryEventStorageEngine.java:177-179 | A payload type matches an empty type set, or a set that contains it. |
| `InMemoryEngine.MatchingIndices` | eventsourcing/src/main/java/org/axonframework/eventsourcing/eventstore/AsyncInMemoryEventStorageEngine.java:181-186 | An indexed event is judged by the criteria's `matchingIndices` on its indices. An unindexed event matches only criteria without indices. |
| `InMemoryEngine.FilterMatching` | eventsourcing/src/main/java/org/axonframework/eventsourcing/eventstore/AsyncInMemoryEventStorageEngine.java:165-168 | Filtering keeps exactly the positions whose events match, and keeps ascending order. |
| `InMemoryEngine.MatchingPositions` | eventsourcing/src/main/java/org/axonframework/eventsourcing/eventstore/AsyncInMemoryEventStorageEngine.java:165-168 | The positions of `subMap(start, end)` that match form a strictly increasing sequence holding exactly the stored positions in `[start, end)` whose events match. |
| `InMemoryEngine.EventsAt` | eventsourcing/src/main/java/org/axonframework/eventsourcing/eventstore/AsyncInMemoryEventStorageEngine.java:166 | `values()` of a sub-map: one event per position, in the given order. |
| `InMemoryEngine.MatchingIsRead` | eventsourcing/src/main/java/org/axonframework/eventsourcing/eventstore/AsyncInMemoryEventStorageEngine.java:162-169 | The events at the matching positions are a read of the range: some strictly increasing enumeration of exactly the selected positions yields them position by position, so every selected event is delivered once, nothing else is, and delivery is in ascending position order. |
| `InMemoryEngine.EnumerationIsRead` | eventsourcing/src/main/java/org/axonframework/eventsourcing/eventstore/AsyncInMemoryEventStorageEngine.java:165-168 | The events at any strictly increasing enumeration of exactly the selected positions form a read of the range. |
| `InMemoryEngine.EventsToStream` | eventsourcing/src/main/java/org/axonframework/eventsourcing/eventstore/AsyncInMemoryEventStorageEngine.java:162-169 | The read fails exactly when `start > end`, with `IllegalArgument`. Otherwise it delivers the matching events of `[start, end)`, one per selected position, in ascending position order, and nothing else. |
| `InMemoryEngine.Source` | eventsourcing/src/main/java/org/axonframework/eventsourcing/eventstore/AsyncInMemoryEventStorageEngine.java:143-151 | `source` fails exactly when the start exceeds the end, which defaults to `Long.MAX_VALUE`, and then with `IllegalArgument`. Otherwise it delivers the events of `[start, end)` matching the condition's criteria, one per position, in ascending position order. |
| `InMemoryEngine.Stream` | eventsourcing/src/main/java/org/axonframework/eventsourcing/eventstore/AsyncInMemoryEventStorageEngine.java:154-160 | An absent token fails with a null-pointer error. A present one delivers the events matching the condition's criteria from its position, or -1 without one, up to `Long.MAX_VALUE`, one per position, in ascending position order. |
| `InMemoryEngine.StreamStart` | eventsourcing/src/main/java/org/axonframework/eventsourcing/eventstore/AsyncInMemoryEventStorageEngine.java:156 | `stream` starts at a global sequence token's own index, and at -1 for a token without a position. |
| `InMemoryEngine.StreamFromBeginning` | eventsourcing/src/main/java/org/axonframework/eventsourcing/eventstore/StreamingCondition.java:21-30 | The corrected `stream`: an absent position reads from just past the tail token, i.e. from the beginning of the store, in position order. A present token reads exactly as `stream` does. |
| `InMemoryEngine.TailToken` | eventsourcing/src/main/java/org/axonframework/eventsourcing/eventstore/AsyncInMemoryEventStorageEngine.java:189-199 | On an empty log the tail token is `offset - 1`. Otherwise it is just before the first stored position and below every stored position. |
| `InMemoryEngine.HeadToken` | eventsourcing/src/main/java/org/axonframework/eventsourcing/eventstore/AsyncInMemoryEventStorageEngine.java:202-212 | On an empty log the head token is `offset - 1`. Otherwise it is a stored position at or above every stored position. |
| `InMemoryEngine.Later` | eventsourcing/src/main/java/org/axonframework/eventsourcing/eventstore/AsyncInMemoryEventStorageEngine.java:220-228 | The filter keeps exactly the positions whose timestamps are at or after the instant, and it is non-empty exactly when some event is. |
| `InMemoryEngine.TokenAt` | eventsourcing/src/main/java/org/axonframework/eventsourcing/eventstore/AsyncInMemoryEventStorageEngine.java:215-235 | If some event is stamped at or after `at`, the token is just before one such event, and every event at or before the token is stamped earlier. Otherwise the token is the head token. |
| `InMemoryEngine.TokenSince` | eventsourcing/src/main/java/org/axonframework/eventsourcing/eventstore/AsyncInMemoryEventStorageEngine.java:238-244 | The token meets the `tokenAt` promise for the instant `now - since`. |
| `EngineLemmas.NoCriteriaMatchesEverything` | eventsourcing/src/main/java/org/axonframework/eventsourcing/eventstore/AsyncInMemoryEventStorageEngine.java:171-186 | Empty criteria match every stored event, indexed or not. |
| `EngineLemmas.TypeMismatchExcluded` | eventsourcing/src/main/java/org/axonframework/eventsourcing/eventstore/AsyncInMemoryEventStorageEngine.java:173-178 | A non-empty type set that lacks the event's payload type excludes the event. |
| `EngineLemmas.UnindexedNeedsIndexFreeCriteria` | eventsourcing/src/main/java/org/axonframework/eventsourcing/eventstore/AsyncInMemoryEventStorageEngine.java:181-186 | An unindexed event matches only criteria without index matchers, and then exactly when its type matches. |
| `EngineLemmas.PlacedPreservesValid` | eventsourcing/src/main/java/org/axonframework/eventsourcing/eventstore/AsyncInMemoryEventStorageEngine.java:120-124 | Placing a batch right after the last key of a gapless, self-tracked log leaves it gapless and self-tracked. |
| `EngineLemmas.AppendAtPreservesValid` | eventsourcing/src/main/java/org/axonframework/eventsourcing/eventstore/AsyncInMemoryEventStorageEngine.java:93-133 | Any append starting from the last key keeps the log valid. |
| `EngineLemmas.AppendPreservesValid` | eventsourcing/src/main/java/org/axonframework/eventsourcing/eventstore/AsyncInMemoryEventStorageEngine.java:93-133 | `appendEvents` keeps positions gapless and each event tracked at its own key. |
| `EngineLemmas.AppendFromOffsetPreservesValid` | eventsourcing/src/main/java/org/axonframework/eventsourcing/eventstore/AsyncInMemoryEventStorageEngine.java:84-101 | The corrected append keeps the log valid as well. |
| `EngineLemmas.ReadAt` | eventsourcing/src/main/java/org/axonframework/eventsourcing/eventstore/AsyncInMemoryEventStorageEngine.java:165-168 | Any strictly increasing enumeration of the selected positions is the read: the read is uniquely determined and delivers in key order. |
| `EngineLemmas.ReadOfDelivers` | eventsourcing/src/main/java/org/axonframework/eventsourcing/eventstore/AsyncInMemoryEventStorageEngine.java:162-169 | Every event of a read is a selected one, every selected event is in the read, and the read is exactly as long as the set of selected positions. |
| `EngineLemmas.ReadInLogOrder` | eventsourcing/src/main/java/org/axonframework/eventsourcing/eventstore/AsyncInMemoryEventStorageEngine.java:162-169 | On a self-tracked log a read delivers each event from its own key, in strictly increasing position order. |
| `EngineLemmas.StreamIsSourceFromTokenPosition` | eventsourcing/src/main/java/org/axonframework/eventsourcing/eventstore/AsyncInMemoryEventStorageEngine.java:143-160 | `stream(streamingFrom(token))` is `source` from the token's position with no end and no criteria. |
| `EngineLemmas.StreamIncludesEntryAtToken` | eventsourcing/src/main/java/org/axonframework/eventsourcing/eventstore/AsyncInMemoryEventStorageEngine.java:154-160 | The bound is inclusive: the entry stored at the token's own position is delivered again by `stream`. |
| `EngineLemmas.UnpositionedStreamsFromMinusOne` | eventsourcing/src/main/java/org/axonframework/eventsourcing/eventstore/AsyncInMemoryEventStorageEngine.java:156 | A token without a position streams from position -1 on. |
| `EngineLemmas.StreamFromNullFails` | eventsourcing/src/main/java/org/axonframework/eventsourcing/eventstore/AsyncInMemoryEventStorageEngine.java:154-160 | As written, `stream(streamingFrom(null))` fails with a null-pointer error on every engine, while the documented reading succeeds. |
| `EngineLemmas.StreamFromBeginningReadsWholeLog` | eventsourcing/src/main/java/org/axonframework/eventsourcing/eventstore/StreamingCondition.java:21-30 | Streaming from an absent position, as documented, succeeds and delivers every stored event below `Long.MAX_VALUE` that matches the criteria, in position order. |
| `EngineLemmas.SelectedFromBelow` | eventsourcing/src/main/java/org/axonframework/eventsourcing/eventstore/AsyncInMemoryEventStorageEngine.java:165-168 | A read that starts at or below every stored position selects every matching stored position below its end. |
| `EngineLemmas.TailBelowStored` | eventsourcing/src/main/java/org/axonframework/eventsourcing/eventstore/AsyncInMemoryEventStorageEngine.java:189-199 | For a log of `long` positions the tail token is below `Long.MAX_VALUE` and below every stored position. |
| `EngineLemmas.ReadTail` | eventsourcing/src/main/java/org/axonframework/eventsourcing/eventstore/AsyncInMemoryEventStorageEngine.java:162-169 | When the positions after `lo` are exactly `lo+1..hi`, an unfiltered read from `lo+1` succeeds. It yields `hi - lo` events, the `i`-th being the one stored at `lo+1+i`. |
| `EngineLemmas.PlacedRange` | eventsourcing/src/main/java/org/axonframework/eventsourcing/eventstore/AsyncInMemoryEventStorageEngine.java:120-124 | After a successful append the positions past the old head are exactly the new ones, each tracked at its own position. |
| `EngineLemmas.SuccessfulAppendPlaces` | eventsourcing/src/main/java/org/axonframework/eventsourcing/eventstore/AsyncInMemoryEventStorageEngine.java:113-131 | A successful append both placed and tagged the batch. |
| `EngineLemmas.TaggedReadBack` | eventsourcing/src/main/java/org/axonframework/eventsourcing/eventstore/AsyncInMemoryEventStorageEngine.java:113-124 | The events stored at the appended positions sit at those positions and keep each message's identifier, payload type and timestamp. They are the messages themselves without criteria indices, and carry exactly the criteria's index set otherwise. |
| `EngineLemmas.ReadBackOutcome` | eventsourcing/src/main/java/org/axonframework/eventsourcing/eventstore/AsyncInMemoryEventStorageEngine.java:93-151 | For any outcome that placed and tagged a batch after the head, an unfiltered `source` from `head+1` returns exactly the batch, in order, at consecutive positions, tagged as demanded. |
| `EngineLemmas.ReadYourAppend` | eventsourcing/src/main/java/org/axonframework/eventsourcing/eventstore/AsyncInMemoryEventStorageEngine.java:93-151 | Read-your-writes: after a successful `appendEvents`, `source` from the first new position returns exactly the batch, in order, each at its position, tagged as the condition demanded. The batch must end below `Long.MAX_VALUE` (`head + n < Long.MAX_VALUE`), the exclusive end `source` reads up to. |
| `EngineLemmas.ReadYourAppendFromOffset` | eventsourcing/src/main/java/org/axonframework/eventsourcing/eventstore/AsyncInMemoryEventStorageEngine.java:84-151 | Read-your-writes for the corrected append: `source` from just past the head token returns exactly the batch, in order, tagged as the condition demanded. The batch must end below `Long.MAX_VALUE`, as for `ReadYourAppend`. |
| `EngineLemmas.TokenSpan` | eventsourcing/src/main/java/org/axonframework/eventsourcing/eventstore/AsyncInMemoryEventStorageEngine.java:189-212 | On a gapless log the head token is as far past the tail token as there are events. |
| `EngineLemmas.TokenAtBetweenTailAndHead` | eventsourcing/src/main/java/org/axonframework/eventsourcing/eventstore/AsyncInMemoryEventStorageEngine.java:215-235 | `tokenAt` never points before the tail token nor past the head token. |
| `EngineLemmas.TokenAtMonotone` | eventsourcing/src/main/java/org/axonframework/eventsourcing/eventstore/AsyncInMemoryEventStorageEngine.java:215-235 | A later instant never yields an earlier token. |
| `EngineLemmas.TokenSinceMonotone` | eventsourcing/src/main/java/org/axonframework/eventsourcing/eventstore/AsyncInMemoryEventStorageEngine.java:238-244 | A longer look-back never yields a later token. |
| `EngineLemmas.UnconditionedAppendAt` | eventsourcing/src/main/java/org/axonframework/eventsourcing/eventstore/AsyncInMemoryEventStorageEngine.java:95-131 | Appending through `NoAppendCondition` always succeeds with `head + n`. |
| `EngineLemmas.UnconditionedAppendSucceeds` | eventsourcing/src/main/java/org/axonframework/eventsourcing/eventstore/AsyncInMemoryEventStorageEngine.java:93-133 | `appendEvents(INSTANCE, batch)` always completes with the written head plus the batch size. |
| `EngineLemmas.UnconditionedAppendFromOffsetSucceeds` | eventsourcing/src/main/java/org/axonframework/eventsourcing/eventstore/AsyncInMemoryEventStorageEngine.java:84-101 | The corrected unconditioned append completes with the head token plus the batch size. |
| `EngineLemmas.OffsetIgnoredOnFirstAppend` | eventsourcing/src/main/java/org/axonframework/eventsourcing/eventstore/AsyncInMemoryEventStorageEngine.java:84-101 | As written, the first event lands at 0 whatever the offset, and a non-zero offset moves the tail token. |
| `EngineLemmas.AppendFromOffsetKeepsAnchor` | eventsourcing/src/main/java/org/axonframework/eventsourcing/eventstore/AsyncInMemoryEventStorageEngine.java:84-101 | With the corrected head a log anchored at the offset stays anchored. The tail token stays at `offset - 1`, and a success moves the head token by the batch size to the returned value. |
| `EngineLemmas.OutcomeKeepsAnchor` | eventsourcing/src/main/java/org/axonframework/eventsourcing/eventstore/AsyncInMemoryEventStorageEngine.java:189-212 | An outcome that leaves an anchored log alone, or places a batch after its head token, keeps the log anchored and its tail token still. |
| `EngineLemmas.FirstAppendFromOffsetLandsAtOffset` | eventsourcing/src/main/java/org/axonframework/eventsourcing/eventstore/AsyncInMemoryEventStorageEngine.java:84-90 | With the corrected head the first event appended to an empty engine gets the offset as its token. |
| `EngineLemmas.HeadAfterSeries` | eventsourcing/src/main/java/org/axonframework/eventsourcing/eventstore/AsyncInMemoryEventStorageEngine.java:93-133 | As written, N unconditioned appends keep the log valid and advance the starting head by the total batch size, from -1 on an empty log. |
| `EngineLemmas.HeadAfterSeriesFromOffset` | eventsourcing/src/main/java/org/axonframework/eventsourcing/eventstore/AsyncInMemoryEventStorageEngine.java:84-212 | With the corrected head, N unconditioned appends keep the log anchored. The head token advances by the total batch size and the tail token stays at `offset - 1`. |
| `EngineScenarios.FirstTwoStored` | eventsourcing/src/main/java/org/axonframework/eventsourcing/eventstore/AsyncInMemoryEventStorageEngine.java:93-133 | Appending E1 and E2 to an empty engine completes with 1 and stores them at 0 and 1. |
| `EngineScenarios.TwoEventTokens` | eventsourcing/src/main/java/org/axonframework/eventsourcing/eventstore/AsyncInMemoryEventStorageEngine.java:189-212 | Those two stored events give tail token -1 and head token 1. |
| `EngineScenarios.TwoEventRead` | eventsourcing/src/main/java/org/axonframework/eventsourcing/eventstore/AsyncInMemoryEventStorageEngine.java:162-169 | Reading that log from 0 yields `[E1, E2]` in order. |
| `EngineScenarios.FirstTwoEvents` | eventsourcing/src/main/java/org/axonframework/eventsourcing/eventstore/AsyncInMemoryEventStorageEngine.java:93-212 | Offset 0, append E1 and E2: the result is 1, the tail token -1, the head token 1, and `source(start = 0)` yields `[E1, E2]`. |
| `EngineScenarios.ConditionedAppendTagsEvent` | eventsourcing/src/main/java/org/axonframework/eventsourcing/eventstore/AsyncInMemoryEventStorageEngine.java:104-131 | With no matching indexed event after marker 1, a one-index condition succeeds at position 2 and stores the event indexed with that index. |
| `EngineScenarios.StaleWriterIsRefused` | eventsourcing/src/main/java/org/axonframework/eventsourcing/eventstore/AsyncInMemoryEventStorageEngine.java:104-112 | Once a matching indexed event sits after marker 1, a second append with the same condition fails with `ConsistencyMarkerSurpassed(1)` and leaves the engine as it was. |
| `Criteria.NoCriteriaMatchesAnyIndices` | eventsourcing/src/main/java/org/axonframework/eventsourcing/eventstore/NoAppendCondition.java:29-31 | The empty criteria accept any index set. |
| `AppendConditions.AppendCondition.ConsistencyMarker` | eventsourcing/src/main/java/org/axonframework/eventsourcing/eventstore/NoAppendCondition.java:23-26 | The no-append condition reports marker -1. |
| `AppendConditions.AppendCondition.Criteria` | eventsourcing/src/main/java/org/axonframework/eventsourcing/eventstore/NoAppendCondition.java:28-31 | The no-append condition reports no criteria: no types and no indices. |
| `AppendConditions.AppendCondition.With` | eventsourcing/src/main/java/org/axonframework/eventsourcing/eventstore/NoAppendCondition.java:34-36 | `with(sc)` yields a new condition, never the no-append instance, carrying the sourcing condition's criteria and no marker (-1). |
| `AppendConditions.AppendCondition.WithMarker` | eventsourcing/src/main/java/org/axonframework/eventsourcing/eventstore/NoAppendCondition.java:39-41 | `withMarker` always fails with an unsupported-operation error. |
| `AppendConditions.InstanceAccessors` | eventsourcing/src/main/java/org/axonframework/eventsourcing/eventstore/NoAppendCondition.java:17-31 | The shared instance reports marker -1 and no types and no indices. |
| `AppendConditions.SingleInstance` | eventsourcing/src/main/java/org/axonframework/eventsourcing/eventstore/NoAppendCondition.java:17-21 | With its constructor private, `INSTANCE` is the only no-append condition. |
| `AppendConditions.WithMarkerNeverSucceeds` | eventsourcing/src/main/java/org/axonframework/eventsourcing/eventstore/NoAppendCondition.java:39-41 | No marker is accepted, and every marker is refused with the same error. |
| `StreamingConditions.TrackingToken.Position` | eventsourcing/src/main/java/org/axonframework/eventsourcing/eventstore/AsyncInMemoryEventStorageEngine.java:156 | A token has a position exactly when it is a global sequence token, and then it is its index. |
| `StreamingConditions.StreamingCondition.Criteria` | eventsourcing/src/main/java/org/axonframework/eventsourcing/eventstore/StreamingCondition.java:45-47 | The default criteria are none. Only an overriding implementation filters. |
| `StreamingConditions.StreamingFromPosition` | eventsourcing/src/main/java/org/axonframework/eventsourcing/eventstore/StreamingCondition.java:28-30 | `streamingFrom(position)` carries the given, possibly absent, position and no criteria. |
| `MessageStreams.SimpleEntry.Map` | messaging/src/main/java/org/axonframework/messaging/SimpleEntry.java:36-38 | The mapped entry holds the mapper's image of the message. |
| `MessageStreams.EntryMapIdentity` | messaging/src/main/java/org/axonframework/messaging/SimpleEntry.java:33-38 | Mapping an entry with the identity yields an equal record. |
| `MessageStreams.EntryMapComposition` | messaging/src/main/java/org/axonframework/messaging/SimpleEntry.java:33-38 | Mapping twice is mapping once with the composed function. |
| `MessageStreams.FailedMessageStream.AsCompletableFuture` | messaging/src/main/java/org/axonframework/messaging/FailedMessageStream.java:48-50 | The future view is always exceptional, with the stream's error. |
| `MessageStreams.FailedMessageStream.AsFlux` | messaging/src/main/java/org/axonframework/messaging/FailedMessageStream.java:53-55 | The flux view emits no item and signals the stream's error. |
| `MessageStreams.FailedMessageStream.Map` | messaging/src/main/java/org/axonframework/messaging/FailedMessageStream.java:58-61 | A mapped failed stream fails with the same error. |
| `MessageStreams.FailedMessageStream.Reduce` | messaging/src/main/java/org/axonframework/messaging/FailedMessageStream.java:64-67 | Reducing a failed stream fails with its error. |
| `MessageStreams.FailedMessageStream.WhenComplete` | messaging/src/main/java/org/axonframework/messaging/FailedMessageStream.java:70-72 | Registering a handler gives back the very same stream. |
| `MessageStreams.FailedMapIgnoresMapper` | messaging/src/main/java/org/axonframework/messaging/FailedMessageStream.java:58-61 | What `map` returns does not depend on the mapper, and it still fails with the original error. |
| `MessageStreams.FailedReduceIgnoresAccumulator` | messaging/src/main/java/org/axonframework/messaging/FailedMessageStream.java:64-67 | What `reduce` returns depends neither on the identity nor on the accumulator. |
| `MessageStreams.FailedMapChainKeepsError` | messaging/src/main/java/org/axonframework/messaging/FailedMessageStream.java:58-61 | Any chain of `map` calls on a failed stream is that same stream, failing with the same error. |
| `MessageStreams.WhenCompleteKeepsResults` | messaging/src/main/java/org/axonframework/messaging/FailedMessageStream.java:70-72 | Registering a completion handler alters neither the future, the flux nor the reduction the stream delivers. |
| `MessageStreams.FailedFluxAgreesWithFuture` | messaging/src/main/java/org/axonframework/messaging/FailedMessageStream.java:48-55 | The first signal of the flux view is the future view's failure, and folding the flux with any identity and accumulator fails with the same error. |
| `MessageStreams.SingleValueMessageStream.AsCompletableFuture` | messaging/src/main/java/org/axonframework/messaging/SingleValueMessageStream.java:65-67 | The future view is the source future itself. |
| `MessageStreams.SingleValueMessageStream.AsFlux` | messaging/src/main/java/org/axonframework/messaging/SingleValueMessageStream.java:70-72 | The flux view emits at most one item. It fails exactly when the source failed, with no item, signalling the cause of a `CompletionException` and any other error as it is. A completed source emits its entry, or nothing for a `null` entry. |
| `MessageStreams.SingleValueMessageStream.Map` | messaging/src/main/java/org/axonframework/messaging/SingleValueMessageStream.java:75-77 | A completed source maps to the mapper's image of its entry. A failed source yields a stream failing with a `CompletionException` whose unwrapped cause is the source's. |
| `MessageStreams.SingleValueMessageStream.Reduce` | messaging/src/main/java/org/axonframework/messaging/SingleValueMessageStream.java:80-83 | A completed source reduces to one application of the accumulator to the identity and the entry. A failed source yields a future failing with a `CompletionException` whose unwrapped cause is the source's. |
| `MessageStreams.FromEntry` | messaging/src/main/java/org/axonframework/messaging/SingleValueMessageStream.java:49-51 | A stream built from an entry, possibly `null`, completes with exactly that entry. |
| `MessageStreams.FromFuture` | messaging/src/main/java/org/axonframework/messaging/SingleValueMessageStream.java:60-62 | A stream built from a future exposes that future unchanged. |
| `MessageStreams.WrapUnwrap` | messaging/src/main/java/org/axonframework/messaging/SingleValueMessageStream.java:70-83 | A dependent stage wraps a failure in a `CompletionException` at most once, so the flux view signals the same error after any number of stages. Unwrapping gives back the original error, unless it was itself a `CompletionException`, in which case it gives its cause. |
| `MessageStreams.SingleMapFusion` | messaging/src/main/java/org/axonframework/messaging/SingleValueMessageStream.java:75-77 | Mapping twice is mapping once with the composed function. |
| `MessageStreams.SingleFailureIgnoresFunctions` | messaging/src/main/java/org/axonframework/messaging/SingleValueMessageStream.java:75-83 | On a failed source, `map` and `reduce` depend on neither function. Both fail with the source's error wrapped in a `CompletionException`, and the mapped stream's flux view signals the same error as the original's. |
| `MessageStreams.SingleMapChain` | messaging/src/main/java/org/axonframework/messaging/SingleValueMessageStream.java:75-77 | A chain of maps applies the mappers in order to the entry. On a failed source a non-empty chain fails with the wrapped error, and its flux view signals exactly what the original's does. |
| `MessageStreams.SingleFluxAgreesWithFuture` | messaging/src/main/java/org/axonframework/messaging/SingleValueMessageStream.java:65-72 | For a completed source the first signal of the flux view is what the future view completes with. For a failed source it is the future's error with a `CompletionException` unwrapped, which is the error itself when it is not one. |
| `MessageStreams.SingleReduceFoldsFlux` | messaging/src/main/java/org/axonframework/messaging/SingleValueMessageStream.java:70-83 | For a non-null entry `reduce` is the left fold of the flux view. For a failed source `reduce` fails with a `CompletionException` and the fold fails with its cause. For a `null` entry the accumulator still sees the `null` although the flux is empty. |

## Left out

- Concurrency. The `synchronized` block around the conflict check and the insert makes each append atomic. Appends are modelled as atomic state transitions, and interleavings are not modelled.
- Logging (`logger.debug`) and `describeTo`: neither affects any result.
- The `Clock`: `tokenSince` takes the current instant as the parameter `now`. Instants and durations are integers on one time line.
- 64-bit arithmetic. Positions, markers and the offset are unbounded integers, so wrap-around of `head++`, `marker + 1` and `offset - 1` at the `long` extremes is not modelled. `Long.MAX_VALUE` is kept as the default exclusive bound of `source` and `stream`.
- `CompletableFuture` is modelled as already completed, with no pending state, and `Flux` as its finite emissions plus an optional terminal error. Laziness, back-pressure and the point in time at which a mapper runs are not modelled.
- Mappers and accumulators that throw are not modelled: functions are total.
- Call counts. "Never invoked" is stated as a result that does not depend on the function. "Invoked once" is stated as a result that is one application of it.
- `MessageStream.fromStream` wrapping and the `.map(Function.identity())` in `source` are not modelled: they do not change the entries delivered.
- `EventCriteria` is not part of this model. `matchingIndices` is taken as "criteria without indices accept everything, otherwise some index of the criteria occurs among the event's indices", and `noCriteria()` as no types and no indices.
- `AppendCondition.from` is not part of this model. It is taken to build a condition with the sourcing condition's criteria and marker -1.
- `IndexedEventMessage` and the tracked message classes are not part of this model. An event is indexed when it carries an index set, and `asIndexedEvent` replaces that set.
- `StreamingFrom` is not part of this model. It is taken to return the given, possibly absent, position and the default criteria.
- InMemoryEngine.Source: the read is taken when `source` is called. The source returns a lazy stream over a live `subMap` view, so events appended before the stream is consumed may also be delivered. That is not modelled.
- InMemoryEngine.Stream: the read is taken when `stream` is called. As with `source`, events appended before the live view is consumed are not modelled. An absent position fails with a null-pointer error, as listed under Findings. The contract says nothing about a token whose position is above `Long.MAX_VALUE`, because such a position is not a `long`.
- `TrackingToken` implementations other than the global sequence token are collapsed into one token without a position.
- Behaviour a caller might not expect, which the model keeps as written:
  - `whenComplete` on a failed stream returns the stream without registering or running the handler (messaging/src/main/java/org/axonframework/messaging/FailedMessageStream.java:71).
  - `stream` reads from the token's own position inclusively, since the lower bound of `subMap` is inclusive (AsyncInMemoryEventStorageEngine.java:165).
  - `appendEvents` ignores the offset, as listed under Findings (AsyncInMemoryEventStorageEngine.java:101).

## Findings

| source | as written | input that shows it | evidently intended | confidence | as-written member | corrected member |
|---|---|---|---|---|---|---|
| eventsourcing/src/main/java/org/axonframework/eventsourcing/eventstore/AsyncInMemoryEventStorageEngine.java:101 | On an empty log the append head starts at -1, so the first event is stored at position 0 whatever the offset. The tail and head tokens then jump from `offset - 1` to -1 and 0. | An engine built with offset 5, then one event appended without criteria: the event lands at 0 and the append returns 0. | The constructor documents the offset as the token of the first appended event, and the tokens of an empty engine already report `offset - 1`. The head should start at `offset - 1` (the head token), so the first event lands at 5. | not executed | `EngineLemmas.OffsetIgnoredOnFirstAppend` | `EngineLemmas.FirstAppendFromOffsetLandsAtOffset` |
| eventsourcing/src/main/java/org/axonframework/eventsourcing/eventstore/StreamingCondition.java:21-30 | `stream` dereferences `condition.position()` (AsyncInMemoryEventStorageEngine.java:156), so a condition built by `streamingFrom(null)` throws a `NullPointerException`. | `stream(streamingFrom(null))` on any engine. | `streamingFrom` documents a `null` position as streaming from the beginning of the store. | not executed | `EngineLemmas.StreamFromNullFails` | `EngineLemmas.StreamFromBeginningReadsWholeLog` |
