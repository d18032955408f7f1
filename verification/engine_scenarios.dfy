/**
 * Concrete runs of the engine, replayed on the model: two unconditioned appends, a
 * conditioned append that tags its event, and a stale writer that is refused.
 */
module EngineScenarios {
  import opened Wrappers
  import opened Errors
  import opened Criteria
  import opened Events
  import opened AppendConditions
  import opened Positions
  import opened InMemoryEngine
  import opened EngineLemmas

  /** The criteria the two conditioned writers share: events tagged `card:1`. */
  const CARD_ONE: EventCriteria := EventCriteria({}, {Index("card", "1")})

  /** Both writers observed the log up to position 1. */
  const STALE_CONDITION: AppendCondition := DefaultAppendCondition(1, CARD_ONE)

  /** The engine after appending `e1`, `e2` unconditionally to a fresh engine with offset 0. */
  function AfterFirstTwo(e1: EventMessage, e2: EventMessage): Engine {
    AppendEvents(NewEngine(0), INSTANCE, [e1, e2]).engine
  }

  /** Two unconditioned appends to a fresh engine store the events at 0 and 1, tracked there. */
  lemma FirstTwoStored(e1: EventMessage, e2: EventMessage)
    ensures var o := AppendEvents(NewEngine(0), INSTANCE, [e1, e2]);
      && o.result == Success(1)
      && o.engine.events == map[0 := Tracked(0, e1), 1 := Tracked(1, e2)]
  {
    var e := NewEngine(0);
    var o := AppendEvents(e, INSTANCE, [e1, e2]);
    assert AppendSpec(e, INSTANCE, [e1, e2], -1, o);
    assert Placed(e, [e1, e2], -1, o);
    assert TaggedAs(NO_CRITERIA, [e1, e2], -1, o);
    var log := o.engine.events;
    assert forall k :: k in log <==> k == 0 || k == 1;
    var evs := [e1, e2];
    assert o.engine.events[-1 + 1 + 0].event == evs[0] == e1;
    assert o.engine.events[-1 + 1 + 1].event == evs[1] == e2;
  }

  /** On the log holding `e1` at 0 and `e2` at 1, the tokens frame positions 0..1. */
  lemma TwoEventTokens(e1: EventMessage, e2: EventMessage, offset: int)
    ensures var e := Engine(map[0 := Tracked(0, e1), 1 := Tracked(1, e2)], offset);
      TailToken(e) == -1 && HeadToken(e) == 1
  {
    var log := map[0 := Tracked(0, e1), 1 := Tracked(1, e2)];
    assert log.Keys == {0, 1};
    assert FirstKey(log) == 0 by { assert IsLeast(FirstKey(log), log.Keys); }
    assert LastKey(log) == 1 by { assert IsGreatest(LastKey(log), log.Keys); }
  }

  /** On a log holding `e1` at `p` and `e2` at `p + 1`, an unfiltered read from `p` covering both yields them in order. */
  lemma TwoEventRead(log: Log, p: int, e1: EventMessage, e2: EventMessage, end: int)
    requires log.Keys == {p, p + 1} && log[p] == Tracked(p, e1) && log[p + 1] == Tracked(p + 1, e2)
    requires p + 1 < end
    ensures EventsToStream(log, p, end, NO_CRITERIA) == Success([Tracked(p, e1), Tracked(p + 1, e2)])
  {
    var ks := [p, p + 1];
    forall k
      ensures k in ks <==> k in log && p <= k < end && Match(log[k], NO_CRITERIA)
    {
      if k in log {
        NoCriteriaMatchesEverything(log[k]);
      }
    }
    ReadAt(log, p, end, NO_CRITERIA, ks);
    var out := EventsAt(log, ks);
    assert out == [Tracked(p, e1), Tracked(p + 1, e2)];
  }

  /**
   * Two unconditioned appends to a fresh engine: the append reports position 1, the
   * tokens frame positions 0..1, and a read from 0 yields both events in order.
   */
  lemma FirstTwoEvents(e1: EventMessage, e2: EventMessage)
    ensures var o := AppendEvents(NewEngine(0), INSTANCE, [e1, e2]);
      && o.result == Success(1)
      && TailToken(o.engine) == -1
      && HeadToken(o.engine) == 1
      && Source(o.engine, SourcingCondition(0, None, NO_CRITERIA)) == Success([Tracked(0, e1), Tracked(1, e2)])
  {
    FirstTwoStored(e1, e2);
    TwoEventTokens(e1, e2, 0);
    var log := map[0 := Tracked(0, e1), 1 := Tracked(1, e2)];
    assert log.Keys == {0, 1};
    TwoEventRead(log, 0, e1, e2, MAX_LONG);
  }

  /**
   * A writer that observed the log up to position 1 appends `e3` with criteria `card:1`:
   * nothing after position 1 conflicts, so the event lands at 2 tagged `card:1`.
   */
  lemma ConditionedAppendTagsEvent(e1: EventMessage, e2: EventMessage, e3: EventMessage)
    ensures var o := AppendEvents(AfterFirstTwo(e1, e2), STALE_CONDITION, [e3]);
      && o.result == Success(2)
      && 2 in o.engine.events
      && o.engine.events[2].event.indices == Some({Index("card", "1")})
      && o.engine.events[2].event.identifier == e3.identifier
  {
    FirstTwoStored(e1, e2);
    TwoEventTokens(e1, e2, 0);
    var e := AfterFirstTwo(e1, e2);
    assert e.events.Keys == {0, 1};
    assert HeadAsWritten(e) == 1;
    var o := AppendEvents(e, STALE_CONDITION, [e3]);
    assert AppendSpec(e, STALE_CONDITION, [e3], 1, o);
    assert !ConflictAfter(e.events, 1, CARD_ONE);
    assert o.result.Success?;
    assert Placed(e, [e3], 1, o);
    assert TaggedAs(CARD_ONE, [e3], 1, o);
  }

  /**
   * A second writer still holding marker 1 appends with the same criteria: the event the
   * first writer stored at position 2 now matches, so the append is refused and the log
   * is left as it was.
   */
  lemma StaleWriterIsRefused(e1: EventMessage, e2: EventMessage, e3: EventMessage, e4: EventMessage)
    ensures var after := AppendEvents(AfterFirstTwo(e1, e2), STALE_CONDITION, [e3]).engine;
      var o := AppendEvents(after, STALE_CONDITION, [e4]);
      && o.result == Failure(ConsistencyMarkerSurpassed(1))
      && o.engine == after
  {
    ConditionedAppendTagsEvent(e1, e2, e3);
    var after := AppendEvents(AfterFirstTwo(e1, e2), STALE_CONDITION, [e3]).engine;
    var o := AppendEvents(after, STALE_CONDITION, [e4]);
    assert AppendSpec(after, STALE_CONDITION, [e4], HeadAsWritten(after), o);
    assert CARD_ONE.indices == {Index("card", "1")};
    assert |CARD_ONE.indices| == 1;
    assert Index("card", "1") in CARD_ONE.indices * after.events[2].event.indices.value;
    assert after.events[2].event.IsIndexed() && CARD_ONE.MatchingIndices(after.events[2].event.indices.value);
    assert o.result.Failure?;
  }
}
