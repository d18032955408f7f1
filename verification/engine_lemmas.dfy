/** Properties of the in-memory storage engine that relate several operations. */
module EngineLemmas {
  import opened Wrappers
  import opened Errors
  import opened Criteria
  import opened Events
  import opened Positions
  import opened AppendConditions
  import opened StreamingConditions
  import opened InMemoryEngine

  // ---------------------------------------------------------------------------
  // Matching

  /** No criteria matches every stored event, indexed or not. */
  lemma NoCriteriaMatchesEverything(t: TrackedEvent)
    ensures Match(t, NO_CRITERIA)
  {
  }

  /** An event whose type the criteria do not list is excluded whatever its indices. */
  lemma TypeMismatchExcluded(t: TrackedEvent, c: EventCriteria)
    requires c.types != {} && t.event.payloadType !in c.types
    ensures !Match(t, c)
  {
  }

  /** An unindexed event only passes criteria without index matchers. */
  lemma UnindexedNeedsIndexFreeCriteria(t: TrackedEvent, c: EventCriteria)
    requires !t.event.IsIndexed()
    ensures Match(t, c) ==> c.indices == {}
    ensures c.indices == {} ==> (Match(t, c) <==> MatchingType(t.event.payloadType, c.types))
  {
  }

  // ---------------------------------------------------------------------------
  // Append keeps the log valid

  /** Placing a batch right after the last key of a valid log leaves it valid. */
  lemma PlacedPreservesValid(e: Engine, events: seq<EventMessage>, head: int, o: AppendOutcome)
    requires Valid(e.events)
    requires !IsEmpty(e.events) ==> head == LastKey(e.events)
    requires o.result.Success? && Placed(e, events, head, o)
    ensures Valid(o.engine.events)
  {
    var log := o.engine.events;
    assert forall k :: k in log.Keys <==> k in e.events.Keys + Between(head, head + |events|);
    assert log.Keys == e.events.Keys + Between(head, head + |events|);
    ContiguousExtend(e.events.Keys, head, |events|);
    forall k | k in log
      ensures log[k].position == k
    {
      if k in e.events {
        assert log[k] == e.events[k];
      }
    }
  }

  lemma AppendAtPreservesValid(e: Engine, c: AppendCondition, events: seq<EventMessage>, head: int)
    requires Valid(e.events)
    requires forall k | k in e.events :: k <= head
    requires !IsEmpty(e.events) ==> head == LastKey(e.events)
    ensures Valid(AppendAt(e, c, events, head).engine.events)
  {
    var o := AppendAt(e, c, events, head);
    if o.result.Success? {
      PlacedPreservesValid(e, events, head, o);
    }
  }

  /** `appendEvents` keeps positions self-describing and gapless. */
  lemma AppendPreservesValid(e: Engine, c: AppendCondition, events: seq<EventMessage>)
    requires Valid(e.events)
    ensures Valid(AppendEvents(e, c, events).engine.events)
  {
    AppendAtPreservesValid(e, c, events, HeadAsWritten(e));
  }

  /** The corrected append keeps the log valid too. */
  lemma AppendFromOffsetPreservesValid(e: Engine, c: AppendCondition, events: seq<EventMessage>)
    requires Valid(e.events)
    ensures Valid(AppendEventsFromOffset(e, c, events).engine.events)
  {
    AppendAtPreservesValid(e, c, events, HeadToken(e));
  }

  // ---------------------------------------------------------------------------
  // Reads

  /** A read of `[start, end)` is the events at the given ascending enumeration of the selected positions. */
  lemma {:induction false} ReadAt(log: Log, start: int, end: int, criteria: EventCriteria, ks: seq<int>)
    requires start <= end
    requires StrictlyIncreasing(ks)
    requires forall k :: k in ks <==> k in log && start <= k < end && Match(log[k], criteria)
    ensures forall i | 0 <= i < |ks| :: ks[i] in log
    ensures EventsToStream(log, start, end, criteria) == Success(EventsAt(log, ks))
  {
    forall i | 0 <= i < |ks|
      ensures ks[i] in log
    {
      var k := ks[i];
      assert k in ks;
    }
    AscendingUnique(MatchingPositions(log, start, end, criteria), ks);
  }

  /**
   * What a read delivers: every entry is the event of a selected position, the event of
   * every selected position is delivered, and there are exactly as many entries as
   * selected positions.
   */
  lemma ReadOfDelivers(log: Log, start: int, end: int, criteria: EventCriteria, out: seq<TrackedEvent>)
    requires ReadOf(log, start, end, criteria, out)
    ensures forall i | 0 <= i < |out| :: out[i] in SelectedEvents(log, start, end, criteria)
    ensures forall k | k in Selected(log, start, end, criteria) :: log[k] in out
    ensures |out| == |Selected(log, start, end, criteria)|
  {
    var sel := Selected(log, start, end, criteria);
    var ks :| && StrictlyIncreasing(ks)
              && |ks| == |out|
              && (forall k :: k in ks <==> k in sel)
              && (forall i | 0 <= i < |ks| :: ks[i] in log && out[i] == log[ks[i]]);
    forall i | 0 <= i < |out|
      ensures out[i] in SelectedEvents(log, start, end, criteria)
    {
      assert ks[i] in ks;
    }
    forall k | k in sel
      ensures log[k] in out
    {
      var i :| 0 <= i < |ks| && ks[i] == k;
      assert out[i] == log[k];
    }
    IncreasingSize(ks, sel);
  }

  /** On a self-tracked log a read delivers events in strictly increasing position order, each at its own key. */
  lemma {:induction false} ReadInLogOrder(log: Log, start: int, end: int, criteria: EventCriteria)
    requires SelfTracked(log)
    requires start <= end
    ensures var out := EventsToStream(log, start, end, criteria).value;
      && (forall i | 0 <= i < |out| :: out[i].position in log && log[out[i].position] == out[i])
      && (forall i, j | 0 <= i < j < |out| :: out[i].position < out[j].position)
  {
    var ks := MatchingPositions(log, start, end, criteria);
    ReadAt(log, start, end, criteria, ks);
    var out := EventsToStream(log, start, end, criteria).value;
    assert forall i | 0 <= i < |out| :: out[i] == log[ks[i]] && out[i].position == ks[i];
  }

  /** `stream` from a token reads like `source` from the token's own position, unbounded and unfiltered. */
  lemma StreamIsSourceFromTokenPosition(e: Engine, token: TrackingToken)
    ensures Stream(e, StreamingFromPosition(Some(token)))
         == Source(e, SourcingCondition(StreamStart(token), None, NO_CRITERIA))
  {
  }

  /** The entry stored at the token's own position is delivered again by `stream` (the bound is inclusive). */
  lemma StreamIncludesEntryAtToken(e: Engine, p: int)
    requires p in e.events && p < MAX_LONG
    ensures var r := Stream(e, StreamingFromPosition(Some(GlobalSequence(p))));
      r.Success? && e.events[p] in r.value
  {
    NoCriteriaMatchesEverything(e.events[p]);
    assert p in Selected(e.events, p, MAX_LONG, NO_CRITERIA);
  }

  /** A token without a position streams from position -1 on. */
  lemma UnpositionedStreamsFromMinusOne(e: Engine)
    ensures Stream(e, StreamingFromPosition(Some(Unpositioned)))
         == EventsToStream(e.events, -1, MAX_LONG, NO_CRITERIA)
  {
  }

  /** Every stored position below `end` whose event matches the criteria. */
  function AllMatching(log: Log, end: int, criteria: EventCriteria): set<int> {
    set k | k in log && k < end && Match(log[k], criteria)
  }

  /**
   * As written, streaming from an absent position fails, while the documented reading
   * succeeds whenever the offset and the stored positions are `long` values.
   */
  lemma StreamFromNullFails(e: Engine)
    requires e.offset <= MAX_LONG && forall k | k in e.events :: k <= MAX_LONG
    ensures Stream(e, StreamingFromPosition(None)) == Failure(NullPointer)
    ensures StreamFromBeginning(e, StreamingFromPosition(None)).Success?
  {
    StreamFromBeginningReadsWholeLog(e, StreamingFromPosition(None));
  }

  /**
   * Streaming from an absent position, as documented, delivers every stored event that
   * matches the criteria (below the exclusive bound `Long.MAX_VALUE`), in position order.
   */
  lemma StreamFromBeginningReadsWholeLog(e: Engine, c: StreamingCondition)
    requires c.position.None?
    requires e.offset <= MAX_LONG && forall k | k in e.events :: k <= MAX_LONG
    ensures var r := StreamFromBeginning(e, c);
      && r.Success?
      && Selected(e.events, TailToken(e) + 1, MAX_LONG, c.Criteria()) == AllMatching(e.events, MAX_LONG, c.Criteria())
      && ReadOf(e.events, TailToken(e) + 1, MAX_LONG, c.Criteria(), r.value)
  {
    TailBelowStored(e);
    SelectedFromBelow(e.events, TailToken(e) + 1, MAX_LONG, c.Criteria());
  }

  /** With every position a `long`, the tail token lies below `Long.MAX_VALUE` and below every stored position. */
  lemma TailBelowStored(e: Engine)
    requires e.offset <= MAX_LONG && forall k | k in e.events :: k <= MAX_LONG
    ensures TailToken(e) < MAX_LONG
    ensures forall k | k in e.events :: TailToken(e) < k
  {
    if !IsEmpty(e.events) {
      assert TailToken(e) + 1 in e.events;
    }
  }

  /** A read starting at or below every stored position selects every matching position below its end. */
  lemma SelectedFromBelow(log: Log, lo: int, end: int, criteria: EventCriteria)
    requires forall k | k in log :: lo <= k
    ensures Selected(log, lo, end, criteria) == AllMatching(log, end, criteria)
  {
    var sel := Selected(log, lo, end, criteria);
    assert forall k :: k in sel <==> k in AllMatching(log, end, criteria);
  }

  /**
   * When the positions after `lo` are exactly `lo + 1 .. hi`, an unfiltered read from
   * `lo + 1` to any bound past `hi` yields the events at those positions in order.
   */
  lemma {:induction false} ReadTail(log: Log, lo: int, hi: int, end: int)
    requires forall k | k in log && lo < k :: k <= hi
    requires forall k | lo < k <= hi :: k in log
    requires lo <= hi < end
    ensures var r := EventsToStream(log, lo + 1, end, NO_CRITERIA);
      && r.Success?
      && |r.value| == hi - lo
      && forall i | 0 <= i < hi - lo :: lo + 1 + i in log && r.value[i] == log[lo + 1 + i]
  {
    var ks := Span(lo, hi);
    forall k
      ensures k in ks <==> k in log && lo + 1 <= k < end && Match(log[k], NO_CRITERIA)
    {
      if k in log {
        NoCriteriaMatchesEverything(log[k]);
      }
    }
    ReadAt(log, lo + 1, end, NO_CRITERIA, ks);
    var out := EventsAt(log, ks);
    forall i | 0 <= i < hi - lo
      ensures lo + 1 + i in log && out[i] == log[lo + 1 + i]
    {
      assert ks[i] == lo + 1 + i;
    }
  }

  /**
   * After a successful append the positions past the old head are exactly the new ones,
   * each tracked at its own position.
   */
  lemma PlacedRange(e: Engine, events: seq<EventMessage>, head: int, o: AppendOutcome)
    requires forall k | k in e.events :: k <= head
    requires o.result.Success? && Placed(e, events, head, o)
    ensures forall k | k in o.engine.events && head < k :: k <= head + |events|
    ensures forall k | head < k <= head + |events| :: k in o.engine.events && o.engine.events[k].position == k
  {
  }

  /**
   * What reading back an append shows: from the first new position on, an unfiltered
   * `source` yields exactly the batch, in order, at consecutive positions, each message
   * tagged as the criteria demanded.
   */
  ghost predicate ReadsBack(criteria: EventCriteria, events: seq<EventMessage>, head: int, o: AppendOutcome) {
    var r := Source(o.engine, SourcingCondition(head + 1, None, NO_CRITERIA));
    && r.Success?
    && |r.value| == |events|
    && forall i | 0 <= i < |events| ::
         && r.value[i].position == head + 1 + i
         && r.value[i].event.identifier == events[i].identifier
         && r.value[i].event.payloadType == events[i].payloadType
         && r.value[i].event.timestamp == events[i].timestamp
         && (criteria.indices == {} ==> r.value[i].event == events[i])
         && (criteria.indices != {} ==> r.value[i].event.indices == Some(criteria.indices))
  }

  /** Reading back a successful append shows the batch as the append condition tagged it. */
  lemma ReadYourAppend(e: Engine, c: AppendCondition, events: seq<EventMessage>)
    requires HeadAsWritten(e) + |events| < MAX_LONG
    requires AppendEvents(e, c, events).result.Success?
    ensures ReadsBack(c.Criteria(), events, HeadAsWritten(e), AppendEvents(e, c, events))
  {
    var head := HeadAsWritten(e);
    var o := AppendEvents(e, c, events);
    SuccessfulAppendPlaces(e, c, events);
    ReadBackOutcome(e, c.Criteria(), events, head, o);
  }

  /** Read-your-writes holds for the corrected append too, from the head token on. */
  lemma ReadYourAppendFromOffset(e: Engine, c: AppendCondition, events: seq<EventMessage>)
    requires HeadToken(e) + |events| < MAX_LONG
    requires AppendEventsFromOffset(e, c, events).result.Success?
    ensures ReadsBack(c.Criteria(), events, HeadToken(e), AppendEventsFromOffset(e, c, events))
  {
    var head := HeadToken(e);
    var o := AppendEventsFromOffset(e, c, events);
    assert AppendSpec(e, c, events, head, o);
    ReadBackOutcome(e, c.Criteria(), events, head, o);
  }

  /** The read-back of a successful append, for any outcome that was placed and tagged. */
  lemma ReadBackOutcome(e: Engine, criteria: EventCriteria, events: seq<EventMessage>, head: int, o: AppendOutcome)
    requires forall k | k in e.events :: k <= head
    requires head + |events| < MAX_LONG
    requires o.result.Success? && Placed(e, events, head, o) && TaggedAs(criteria, events, head, o)
    ensures ReadsBack(criteria, events, head, o)
  {
    var log := o.engine.events;
    var n := |events|;
    var sc := SourcingCondition(head + 1, None, NO_CRITERIA);
    assert sc.end.GetOr(MAX_LONG) == MAX_LONG;
    assert Source(o.engine, sc) == EventsToStream(log, head + 1, MAX_LONG, NO_CRITERIA);
    PlacedRange(e, events, head, o);
    ReadTail(log, head, head + n, MAX_LONG);
    TaggedReadBack(criteria, events, head, o, Source(o.engine, sc).value);
  }

  /** A successful append satisfies both halves of its success promise. */
  lemma SuccessfulAppendPlaces(e: Engine, c: AppendCondition, events: seq<EventMessage>)
    requires AppendEvents(e, c, events).result.Success?
    ensures Placed(e, events, HeadAsWritten(e), AppendEvents(e, c, events))
    ensures TaggedAs(c.Criteria(), events, HeadAsWritten(e), AppendEvents(e, c, events))
  {
    assert AppendSpec(e, c, events, HeadAsWritten(e), AppendEvents(e, c, events));
  }

  /** Events read back from the appended positions sit at their positions and carry what the tagging promised. */
  lemma TaggedReadBack(criteria: EventCriteria, events: seq<EventMessage>, head: int, o: AppendOutcome,
                       out: seq<TrackedEvent>)
    requires TaggedAs(criteria, events, head, o)
    requires forall k | head < k <= head + |events| :: k in o.engine.events && o.engine.events[k].position == k
    requires |out| == |events|
    requires forall i | 0 <= i < |events| :: head + 1 + i in o.engine.events && out[i] == o.engine.events[head + 1 + i]
    ensures forall i | 0 <= i < |events| ::
      && out[i].position == head + 1 + i
      && out[i].event.identifier == events[i].identifier
      && out[i].event.payloadType == events[i].payloadType
      && out[i].event.timestamp == events[i].timestamp
      && (criteria.indices == {} ==> out[i].event == events[i])
      && (criteria.indices != {} ==> out[i].event.indices == Some(criteria.indices))
  {
  }

  // ---------------------------------------------------------------------------
  // Tokens

  /** On a gapless log the head token is as far past the tail token as there are events. */
  lemma TokenSpan(e: Engine)
    requires Valid(e.events)
    ensures HeadToken(e) - TailToken(e) == |e.events|
    ensures TailToken(e) <= HeadToken(e)
  {
    if !IsEmpty(e.events) {
      ContiguousIsRange(e.events.Keys);
      assert |e.events.Keys| == |e.events|;
    } else {
      assert e.events == map[];
    }
  }

  /** `tokenAt` never points before the tail nor past the head. */
  lemma TokenAtBetweenTailAndHead(e: Engine, at: int)
    ensures TailToken(e) <= TokenAt(e, at) <= HeadToken(e)
  {
  }

  /** A later instant never yields an earlier token. */
  lemma TokenAtMonotone(e: Engine, t1: int, t2: int)
    requires t1 <= t2
    ensures TokenAt(e, t1) <= TokenAt(e, t2)
  {
    var s1, s2 := Later(e.events, t1), Later(e.events, t2);
    assert s2 <= s1;
    if s2 != {} {
      assert Least(s2) in s1;
    }
  }

  /** Looking further back in time never yields a later token. */
  lemma TokenSinceMonotone(e: Engine, now: int, d1: int, d2: int)
    requires d1 <= d2
    ensures TokenSince(e, now, d2) <= TokenSince(e, now, d1)
  {
    TokenAtMonotone(e, now - d2, now - d1);
  }

  // ---------------------------------------------------------------------------
  // The offset on an empty log

  /** Appending through `NoAppendCondition` cannot fail, from whichever head the append starts. */
  lemma UnconditionedAppendAt(e: Engine, events: seq<EventMessage>, head: int)
    requires forall k | k in e.events :: k <= head
    ensures AppendAt(e, INSTANCE, events, head).result == Success(head + |events|)
  {
    assert INSTANCE.Criteria().indices == {};
    assert AppendSpec(e, INSTANCE, events, head, AppendAt(e, INSTANCE, events, head));
  }

  /** Appending through `NoAppendCondition` cannot fail. */
  lemma UnconditionedAppendSucceeds(e: Engine, events: seq<EventMessage>)
    ensures AppendEvents(e, INSTANCE, events).result == Success(HeadAsWritten(e) + |events|)
  {
    UnconditionedAppendAt(e, events, HeadAsWritten(e));
  }

  /** Appending through `NoAppendCondition` from the head token cannot fail either. */
  lemma UnconditionedAppendFromOffsetSucceeds(e: Engine, events: seq<EventMessage>)
    ensures AppendEventsFromOffset(e, INSTANCE, events).result == Success(HeadToken(e) + |events|)
  {
    UnconditionedAppendAt(e, events, HeadToken(e));
  }

  /**
   * As written, the first append to an empty engine lands at position 0 whatever the
   * offset, and moves the tail token from `offset - 1` to -1.
   */
  lemma OffsetIgnoredOnFirstAppend(offset: int, event: EventMessage)
    ensures var e := NewEngine(offset);
      var o := AppendEvents(e, INSTANCE, [event]);
      && o.result == Success(0)
      && o.engine.events.Keys == {0}
      && TailToken(o.engine) == -1
      && HeadToken(o.engine) == 0
      && (offset != 0 ==> TailToken(o.engine) != TailToken(e))
  {
    var e := NewEngine(offset);
    var o := AppendEvents(e, INSTANCE, [event]);
    assert forall k :: k in o.engine.events.Keys <==> k in {0};
  }

  /** The log starts exactly at the offset (or is empty) and has no gaps. */
  ghost predicate Anchored(e: Engine) {
    Valid(e.events) && (!IsEmpty(e.events) ==> FirstKey(e.events) == e.offset)
  }

  /**
   * With the head taken from the head token, an append keeps the log anchored at the
   * offset: the tail token never moves and a success advances the head by the batch size.
   */
  lemma AppendFromOffsetKeepsAnchor(e: Engine, c: AppendCondition, events: seq<EventMessage>)
    requires Anchored(e)
    ensures var o := AppendEventsFromOffset(e, c, events);
      && Anchored(o.engine)
      && TailToken(o.engine) == TailToken(e) == e.offset - 1
      && (o.result.Success? ==> HeadToken(o.engine) == HeadToken(e) + |events| == o.result.value)
  {
    var o := AppendEventsFromOffset(e, c, events);
    assert AppendSpec(e, c, events, HeadToken(e), o);
    AppendFromOffsetPreservesValid(e, c, events);
    OutcomeKeepsAnchor(e, events, HeadToken(e), o);
  }

  /** Any outcome that leaves an anchored log alone or places a batch after its head keeps it anchored. */
  lemma {:induction false} OutcomeKeepsAnchor(e: Engine, events: seq<EventMessage>, head: int, o: AppendOutcome)
    requires Anchored(e) && head == HeadToken(e)
    requires o.result.Failure? ==> o.engine == e
    requires o.result.Success? ==> Placed(e, events, head, o)
    requires Valid(o.engine.events)
    ensures && Anchored(o.engine)
            && TailToken(o.engine) == TailToken(e) == e.offset - 1
            && (o.result.Success? ==> HeadToken(o.engine) == head + |events| == o.result.value)
  {
    if o.result.Success? && |events| > 0 {
      var keys := o.engine.events.Keys;
      assert head + |events| in keys;
      assert head + 1 in keys;
      if IsEmpty(e.events) {
        assert head == e.offset - 1;
        assert FirstKey(o.engine.events) == e.offset;
      } else {
        assert FirstKey(e.events) in keys;
        assert FirstKey(o.engine.events) == FirstKey(e.events);
      }
      assert LastKey(o.engine.events) == head + |events|;
    }
  }

  /** The first event appended to an empty engine, as the offset is documented, sits at the offset. */
  lemma FirstAppendFromOffsetLandsAtOffset(offset: int, event: EventMessage)
    ensures var o := AppendEventsFromOffset(NewEngine(offset), INSTANCE, [event]);
      && o.result == Success(offset)
      && o.engine.events.Keys == {offset}
      && TailToken(o.engine) == offset - 1
      && HeadToken(o.engine) == offset
  {
    var e := NewEngine(offset);
    assert Anchored(e);
    AppendFromOffsetKeepsAnchor(e, INSTANCE, [event]);
    var o := AppendEventsFromOffset(e, INSTANCE, [event]);
    assert forall k :: k in o.engine.events.Keys <==> k in {offset};
  }

  /** Total number of events in a series of batches. */
  function TotalSize(batches: seq<seq<EventMessage>>): nat {
    if batches == [] then 0 else |batches[0]| + TotalSize(batches[1..])
  }

  /** A series of unconditioned appends, as written. */
  function AppendSeries(e: Engine, batches: seq<seq<EventMessage>>): Engine
    decreases |batches|
  {
    if batches == [] then e else AppendSeries(AppendEvents(e, INSTANCE, batches[0]).engine, batches[1..])
  }

  /** A series of unconditioned appends with the corrected starting head. */
  function AppendSeriesFromOffset(e: Engine, batches: seq<seq<EventMessage>>): Engine
    decreases |batches|
  {
    if batches == [] then e else AppendSeriesFromOffset(AppendEventsFromOffset(e, INSTANCE, batches[0]).engine, batches[1..])
  }

  /** As written, N unconditioned appends advance the append head by N from wherever it started (-1 when empty). */
  lemma {:induction false} HeadAfterSeries(e: Engine, batches: seq<seq<EventMessage>>)
    requires Valid(e.events)
    ensures Valid(AppendSeries(e, batches).events)
    ensures HeadAsWritten(AppendSeries(e, batches)) == HeadAsWritten(e) + TotalSize(batches)
    decreases |batches|
  {
    if batches != [] {
      var o := AppendEvents(e, INSTANCE, batches[0]);
      AppendPreservesValid(e, INSTANCE, batches[0]);
      var h := HeadAsWritten(e);
      var n := |batches[0]|;
      assert HeadAsWritten(o.engine) == h + n by {
        if n > 0 {
          var keys := o.engine.events.Keys;
          assert h + n in keys;
        } else {
          assert forall k :: k in o.engine.events.Keys <==> k in e.events.Keys;
          assert o.engine.events == e.events;
        }
      }
      HeadAfterSeries(o.engine, batches[1..]);
    }
  }

  /**
   * With the corrected head, N unconditioned appends to an engine anchored at its offset
   * leave the head token at `offset - 1 + N` (plus what was there) and the tail at `offset - 1`.
   */
  lemma {:induction false} HeadAfterSeriesFromOffset(e: Engine, batches: seq<seq<EventMessage>>)
    requires Anchored(e)
    ensures Anchored(AppendSeriesFromOffset(e, batches))
    ensures HeadToken(AppendSeriesFromOffset(e, batches)) == HeadToken(e) + TotalSize(batches)
    ensures TailToken(AppendSeriesFromOffset(e, batches)) == e.offset - 1
    decreases |batches|
  {
    if batches != [] {
      var o := AppendEventsFromOffset(e, INSTANCE, batches[0]);
      AppendFromOffsetKeepsAnchor(e, INSTANCE, batches[0]);
      if |batches[0]| == 0 {
        assert forall k :: k in o.engine.events.Keys <==> k in e.events.Keys;
        assert o.engine.events == e.events;
      }
      HeadAfterSeriesFromOffset(o.engine, batches[1..]);
    }
  }
}
