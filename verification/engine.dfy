/**
 * The in-memory event storage engine: an append-only log from positions to tracked
 * events with optimistic concurrency control on append.
 *
 * The engine's `synchronized` append is one atomic state transition from an `Engine`
 * to an `AppendOutcome`; reads and token queries are pure functions of a snapshot.
 */
module InMemoryEngine {
  import opened Wrappers
  import opened Errors
  import opened Criteria
  import opened Events
  import opened Positions
  import opened AppendConditions
  import opened StreamingConditions

  /** `Long.MAX_VALUE`, the exclusive upper bound of unbounded reads. */
  const MAX_LONG: int := 0x7FFF_FFFF_FFFF_FFFF

  /** The number of index matchers this engine evaluates in an append condition. */
  const SUPPORTED_INDICES: int := 1

  type Log = map<int, TrackedEvent>

  /** The engine's state: stored events by position, and the offset used for tokens of an empty log. */
  datatype Engine = Engine(events: Log, offset: int)

  /** An empty engine; the single-argument constructor of the source passes offset 0. */
  function NewEngine(offset: int): (e: Engine)
    ensures IsEmpty(e.events) && Valid(e.events)
    ensures TailToken(e) == offset - 1 && HeadToken(e) == offset - 1
    ensures HeadAsWritten(e) == -1
  {
    Engine(map[], offset)
  }

  /** The log holds no event: no position is a key of it. */
  predicate IsEmpty(log: Log)
    ensures IsEmpty(log) ==> forall k :: k !in log
  {
    log.Keys == {}
  }

  function FirstKey(log: Log): int
    requires !IsEmpty(log)
  {
    Least(log.Keys)
  }

  function LastKey(log: Log): int
    requires !IsEmpty(log)
  {
    Greatest(log.Keys)
  }

  // ---------------------------------------------------------------------------
  // Invariants of the log

  /** Every stored event is tracked with its own key as its token position. */
  ghost predicate SelfTracked(log: Log) {
    forall k | k in log :: log[k].position == k
  }

  /** Positions are self-describing and gapless. */
  ghost predicate Valid(log: Log) {
    SelfTracked(log) && Contiguous(log.Keys)
  }

  // ---------------------------------------------------------------------------
  // Matching

  predicate MatchingType(eventName: string, types: set<string>) {
    types == {} || eventName in types
  }

  /** Indexed events are judged by the criteria's `matchingIndices`; unindexed ones only pass index-free criteria. */
  predicate MatchingIndices(tracked: TrackedEvent, criteria: EventCriteria) {
    if tracked.event.IsIndexed() then criteria.MatchingIndices(tracked.event.indices.value)
    else criteria.indices == {}
  }

  predicate Match(tracked: TrackedEvent, criteria: EventCriteria) {
    MatchingType(tracked.event.payloadType, criteria.types) && MatchingIndices(tracked, criteria)
  }

  /** The conflict the append looks for: an indexed event beyond `marker` whose indices the criteria match. */
  predicate ConflictAfter(log: Log, marker: int, criteria: EventCriteria) {
    exists k | k in log && k >= marker + 1 ::
      log[k].event.IsIndexed() && criteria.MatchingIndices(log[k].event.indices.value)
  }

  // ---------------------------------------------------------------------------
  // Append

  /** The head `appendEvents` starts from: the last key, or -1 for an empty log; the offset plays no part. */
  function HeadAsWritten(e: Engine): (h: int)
    ensures forall k | k in e.events :: k <= h
    ensures IsEmpty(e.events) ==> h == -1
    ensures !IsEmpty(e.events) ==> h in e.events
  {
    if IsEmpty(e.events) then -1 else LastKey(e.events)
  }

  /** `asTrackedEventMessage`: tracks the message at `position`, keeping its indices if it has any. */
  function AsTrackedEventMessage(event: EventMessage, position: int): (r: TrackedEvent)
    ensures r.position == position
    ensures r.event.IsIndexed() <==> event.IsIndexed()
    ensures r.event.indices == event.indices
    ensures r.event.identifier == event.identifier && r.event.timestamp == event.timestamp
    ensures r.event.payloadType == event.payloadType
  {
    Tracked(position, event)
  }

  /** Every message of the batch, indexed with exactly the criteria's index set. */
  function TagAll(events: seq<EventMessage>, indices: set<Index>): (r: seq<EventMessage>)
    ensures |r| == |events|
    ensures forall i | 0 <= i < |r| :: r[i] == AsIndexedEvent(events[i], indices)
  {
    seq(|events|, i requires 0 <= i < |events| => AsIndexedEvent(events[i], indices))
  }

  /** The append loop: each message in turn goes to the position after the current head. */
  function PutEach(log: Log, head: int, events: seq<EventMessage>): (r: Log)
    ensures forall k :: k in r <==> k in log || head < k <= head + |events|
    ensures forall k | k in log && !(head < k <= head + |events|) :: r[k] == log[k]
    ensures forall i | 0 <= i < |events| :: r[head + 1 + i] == AsTrackedEventMessage(events[i], head + 1 + i)
    decreases |events|
  {
    if events == [] then log
    else
      var log' := log[head + 1 := AsTrackedEventMessage(events[0], head + 1)];
      var r := PutEach(log', head + 1, events[1..]);
      assert forall i | 1 <= i < |events| :: events[i] == events[1..][i - 1];
      r
  }

  datatype AppendOutcome = AppendOutcome(engine: Engine, result: Result<int, Error>)

  /** A successful append put the batch at `head + 1 ..`, kept every older entry and returned the new head. */
  ghost predicate Placed(e: Engine, events: seq<EventMessage>, head: int, o: AppendOutcome)
    requires o.result.Success?
  {
    && o.result.value == head + |events|
    && o.engine.offset == e.offset
    && (forall k :: k in o.engine.events <==> k in e.events || head < k <= head + |events|)
    && (forall k | k in e.events :: o.engine.events[k] == e.events[k])
    && (forall k | k in o.engine.events && head < k <= head + |events| :: o.engine.events[k].position == k)
  }

  /**
   * A successful append stored each message with its identity and timestamp, indexed with
   * exactly the criteria's index set when there is one, and as given otherwise.
   */
  ghost predicate TaggedAs(criteria: EventCriteria, events: seq<EventMessage>, head: int, o: AppendOutcome)
  {
    forall i | 0 <= i < |events| ::
      && head + 1 + i in o.engine.events
      && var stored := o.engine.events[head + 1 + i].event;
      && stored.identifier == events[i].identifier
      && stored.payloadType == events[i].payloadType
      && stored.timestamp == events[i].timestamp
      && (criteria.indices != {} ==> stored.indices == Some(criteria.indices))
      && (criteria.indices == {} ==> stored == events[i])
  }

  /** What an append promises, for a given starting head. */
  ghost predicate AppendSpec(e: Engine, c: AppendCondition, events: seq<EventMessage>, head: int, o: AppendOutcome) {
    var criteria := c.Criteria();
    var tagCount := |criteria.indices|;
    && (o.result.Failure? ==> o.engine == e)
    && (tagCount > SUPPORTED_INDICES ==> o.result == Failure(TooManyIndices(tagCount, SUPPORTED_INDICES)))
    && (tagCount == 1 ==>
          (o.result.Failure? <==> exists k | k in e.events && k > c.ConsistencyMarker() ::
                                    e.events[k].event.IsIndexed()
                                    && criteria.MatchingIndices(e.events[k].event.indices.value)))
    && (tagCount == 1 && o.result.Failure? ==>
          o.result.error == ConsistencyMarkerSurpassed(c.ConsistencyMarker()))
    && (tagCount == 0 ==> o.result.Success?)
    && (o.result.Success? ==> Placed(e, events, head, o) && TaggedAs(criteria, events, head, o))
  }

  /** The body of `appendEvents` for a given starting head. */
  function AppendAt(e: Engine, c: AppendCondition, events: seq<EventMessage>, head: int): (o: AppendOutcome)
    requires forall k | k in e.events :: k <= head
    ensures AppendSpec(e, c, events, head, o)
  {
    var tagCount := |c.Criteria().indices|;
    if tagCount > SUPPORTED_INDICES then
      AppendOutcome(e, Failure(TooManyIndices(tagCount, SUPPORTED_INDICES)))
    else if tagCount != 0 && ConflictAfter(e.events, c.ConsistencyMarker(), c.Criteria()) then
      AppendOutcome(e, Failure(ConsistencyMarkerSurpassed(c.ConsistencyMarker())))
    else
      var toAppend := if tagCount != 0 then TagAll(events, c.Criteria().indices) else events;
      var o := AppendOutcome(Engine(PutEach(e.events, head, toAppend), e.offset), Success(head + |toAppend|));
      assert forall k | head < k <= head + |events| :: o.engine.events[k] == AsTrackedEventMessage(toAppend[k - head - 1], k);
      assert Placed(e, events, head, o);
      assert TaggedAs(c.Criteria(), events, head, o);
      o
  }

  /** `appendEvents(condition, events)` as written: an empty log starts at head -1. */
  function AppendEvents(e: Engine, c: AppendCondition, events: seq<EventMessage>): (o: AppendOutcome)
    ensures AppendSpec(e, c, events, HeadAsWritten(e), o)
  {
    AppendAt(e, c, events, HeadAsWritten(e))
  }

  /**
   * `appendEvents` as its constructor documents the offset: an empty log starts at
   * head `offset - 1`, i.e. at the head token, so the first event lands at `offset`.
   */
  function AppendEventsFromOffset(e: Engine, c: AppendCondition, events: seq<EventMessage>): (o: AppendOutcome)
    ensures AppendSpec(e, c, events, HeadToken(e), o)
  {
    AppendAt(e, c, events, HeadToken(e))
  }

  // ---------------------------------------------------------------------------
  // Reads

  /** Keeps, in order, the positions whose events match the criteria. */
  function FilterMatching(log: Log, ks: seq<int>, criteria: EventCriteria): (r: seq<int>)
    requires forall k | k in ks :: k in log
    ensures forall k :: k in r <==> k in ks && Match(log[k], criteria)
    ensures StrictlyIncreasing(ks) ==> StrictlyIncreasing(r)
    decreases |ks|
  {
    if ks == [] then []
    else
      var first := ks[0];
      assert first in ks;
      var rest := FilterMatching(log, ks[1..], criteria);
      assert forall k :: k in ks <==> k == first || k in ks[1..];
      assert StrictlyIncreasing(ks) ==> forall x | x in rest :: first < x by {
        if StrictlyIncreasing(ks) {
          forall x | x in rest
            ensures first < x
          {
            var j :| 0 <= j < |ks[1..]| && ks[1..][j] == x;
            assert ks[j + 1] == x;
          }
        }
      }
      if Match(log[first], criteria) then
        assert StrictlyIncreasing(ks) ==> StrictlyIncreasing([first] + rest) by {
          if StrictlyIncreasing(ks) {
            PrependIncreasing(first, rest);
          }
        }
        [first] + rest
      else rest
  }

  /** The positions of `subMap(start, end)` in ascending key order whose events match. */
  function MatchingPositions(log: Log, start: int, end: int, criteria: EventCriteria): (ks: seq<int>)
    ensures StrictlyIncreasing(ks)
    ensures forall k :: k in ks <==> k in log && start <= k < end && Match(log[k], criteria)
  {
    FilterMatching(log, Ascending(set k | k in log && start <= k < end), criteria)
  }

  /** The set of positions a read of `[start, end)` delivers. */
  function Selected(log: Log, start: int, end: int, criteria: EventCriteria): set<int> {
    set k | k in log && start <= k < end && Match(log[k], criteria)
  }

  /** The events stored at the positions a read of `[start, end)` delivers. */
  function SelectedEvents(log: Log, start: int, end: int, criteria: EventCriteria): set<TrackedEvent> {
    set k | k in Selected(log, start, end, criteria) :: log[k]
  }

  /**
   * `out` is a read of `[start, end)`: the events of exactly the selected positions, one
   * entry per position, in ascending position order. That is, some strictly increasing
   * enumeration of the selected positions yields `out` position by position.
   */
  ghost predicate ReadOf(log: Log, start: int, end: int, criteria: EventCriteria, out: seq<TrackedEvent>) {
    exists ks: seq<int> ::
      && StrictlyIncreasing(ks)
      && |ks| == |out|
      && (forall k :: k in ks <==> k in Selected(log, start, end, criteria))
      && (forall i | 0 <= i < |ks| :: ks[i] in log && out[i] == log[ks[i]])
  }

  /** A strictly increasing sequence has as many elements as its set of values. */
  lemma IncreasingSize(ks: seq<int>, s: set<int>)
    requires StrictlyIncreasing(ks)
    requires forall k :: k in ks <==> k in s
    ensures |ks| == |s|
  {
    AscendingUnique(ks, Ascending(s));
  }

  /** The events stored at the given positions, in the given order. */
  function EventsAt(log: Log, ks: seq<int>): (out: seq<TrackedEvent>)
    requires forall i | 0 <= i < |ks| :: ks[i] in log
    ensures |out| == |ks|
    ensures forall i | 0 <= i < |ks| :: out[i] == log[ks[i]]
  {
    seq(|ks|, i requires 0 <= i < |ks| => log[ks[i]])
  }

  /** The events at the matching positions, in ascending order, are a read of the range. */
  lemma MatchingIsRead(log: Log, start: int, end: int, criteria: EventCriteria)
    ensures ReadOf(log, start, end, criteria, EventsAt(log, MatchingPositions(log, start, end, criteria)))
  {
    var ks := MatchingPositions(log, start, end, criteria);
    assert forall k :: k in ks <==> k in Selected(log, start, end, criteria);
    EnumerationIsRead(log, start, end, criteria, ks, EventsAt(log, ks));
  }

  /** A strictly increasing enumeration of the selected positions, read position by position, is a read. */
  lemma EnumerationIsRead(log: Log, start: int, end: int, criteria: EventCriteria, ks: seq<int>,
                          out: seq<TrackedEvent>)
    requires StrictlyIncreasing(ks)
    requires forall k :: k in ks <==> k in Selected(log, start, end, criteria)
    requires |out| == |ks|
    requires forall i | 0 <= i < |ks| :: ks[i] in log && out[i] == log[ks[i]]
    ensures ReadOf(log, start, end, criteria, out)
  {
  }

  /** `eventsToStream(start, end, criteria)`; `subMap` refuses reversed bounds. */
  function EventsToStream(log: Log, start: int, end: int, criteria: EventCriteria)
    : (r: Result<seq<TrackedEvent>, Error>)
    ensures r.Failure? <==> start > end
    ensures r.Failure? ==> r.error == IllegalArgument
    ensures r.Success? ==> ReadOf(log, start, end, criteria, r.value)
  {
    if start > end then Failure(IllegalArgument)
    else
      MatchingIsRead(log, start, end, criteria);
      Success(EventsAt(log, MatchingPositions(log, start, end, criteria)))
  }

  /** `source(condition)`: the range `[start, end)`, with `end` defaulting to `Long.MAX_VALUE`. */
  function Source(e: Engine, sc: SourcingCondition): (r: Result<seq<TrackedEvent>, Error>)
    ensures r.Failure? <==> sc.start > sc.end.GetOr(MAX_LONG)
    ensures r.Failure? ==> r.error == IllegalArgument
    ensures r.Success? ==> ReadOf(e.events, sc.start, sc.end.GetOr(MAX_LONG), sc.criteria, r.value)
  {
    EventsToStream(e.events, sc.start, sc.end.GetOr(MAX_LONG), sc.criteria)
  }

  /** Where `stream` starts reading: the token's own position (inclusive), or -1 without one. */
  function StreamStart(token: TrackingToken): (start: int)
    ensures token.GlobalSequence? ==> start == token.index
    ensures token.Unpositioned? ==> start == -1
  {
    token.Position().GetOr(-1)
  }

  /**
   * `stream(condition)`: everything from the token's position on. An absent token is
   * dereferenced by the engine and fails with a null-pointer error.
   */
  function Stream(e: Engine, c: StreamingCondition): (r: Result<seq<TrackedEvent>, Error>)
    ensures c.position.None? ==> r == Failure(NullPointer)
    ensures c.position.Some? && StreamStart(c.position.value) <= MAX_LONG ==>
              r.Success? && ReadOf(e.events, StreamStart(c.position.value), MAX_LONG, c.Criteria(), r.value)
  {
    match c.position
    case None => Failure(NullPointer)
    case Some(token) => EventsToStream(e.events, StreamStart(token), MAX_LONG, c.Criteria())
  }

  /**
   * `stream(condition)` as `streamingFrom` documents an absent position: a read from the
   * beginning of the store, i.e. from just past the tail token. A present token reads as before.
   */
  function StreamFromBeginning(e: Engine, c: StreamingCondition): (r: Result<seq<TrackedEvent>, Error>)
    ensures c.position.Some? ==> r == Stream(e, c)
    ensures c.position.None? && TailToken(e) < MAX_LONG ==>
              r.Success? && ReadOf(e.events, TailToken(e) + 1, MAX_LONG, c.Criteria(), r.value)
  {
    match c.position
    case None => EventsToStream(e.events, TailToken(e) + 1, MAX_LONG, c.Criteria())
    case Some(_) => Stream(e, c)
  }

  // ---------------------------------------------------------------------------
  // Tokens

  /** `tailToken()`: just before the first stored event, or `offset - 1` when empty. */
  function TailToken(e: Engine): (t: int)
    ensures IsEmpty(e.events) ==> t == e.offset - 1
    ensures !IsEmpty(e.events) ==> t + 1 in e.events && forall k | k in e.events :: t < k
  {
    if IsEmpty(e.events) then e.offset - 1 else FirstKey(e.events) - 1
  }

  /** `headToken()`: the last stored position, or `offset - 1` when empty. */
  function HeadToken(e: Engine): (t: int)
    ensures IsEmpty(e.events) ==> t == e.offset - 1
    ensures !IsEmpty(e.events) ==> t in e.events && forall k | k in e.events :: k <= t
  {
    if IsEmpty(e.events) then e.offset - 1 else LastKey(e.events)
  }

  /** Some stored event is stamped at or after `at`. */
  predicate SomeAtOrAfter(log: Log, at: int) {
    exists k | k in log :: log[k].event.timestamp >= at
  }

  /** The positions of the events stamped at or after `at`. */
  function Later(log: Log, at: int): (s: set<int>)
    ensures s != {} <==> SomeAtOrAfter(log, at)
    ensures forall k :: k in s <==> k in log && log[k].event.timestamp >= at
  {
    var s := set k | k in log && log[k].event.timestamp >= at;
    assert s != {} <==> SomeAtOrAfter(log, at) by {
      if SomeAtOrAfter(log, at) {
        var k :| k in log && log[k].event.timestamp >= at;
        assert k in s;
      } else {
        assert forall k :: k !in s;
      }
    }
    s
  }

  /**
   * What `tokenAt(at)` denotes: the position just before the first event stamped at or
   * after `at`, or the head token when no event is.
   */
  ghost predicate TokenAtSpec(e: Engine, at: int, t: int) {
    && (SomeAtOrAfter(e.events, at) ==>
          && t + 1 in e.events
          && e.events[t + 1].event.timestamp >= at
          && forall k | k in e.events && k <= t :: e.events[k].event.timestamp < at)
    && (!SomeAtOrAfter(e.events, at) ==> t == HeadToken(e))
  }

  /** `tokenAt(at)`. */
  function TokenAt(e: Engine, at: int): (t: int)
    ensures TokenAtSpec(e, at, t)
  {
    var later := Later(e.events, at);
    if later == {} then HeadToken(e) else Least(later) - 1
  }

  /** `tokenSince(since)` with the clock's current instant passed in as `now`. */
  function TokenSince(e: Engine, now: int, since: int): (t: int)
    ensures TokenAtSpec(e, now - since, t)
  {
    TokenAt(e, now - since)
  }
}
