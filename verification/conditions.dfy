/** The value objects a caller hands to the storage engine. */
module AppendConditions {
  import opened Wrappers
  import opened Errors
  import opened Criteria

  /** A bounded read: positions `start` (inclusive) up to `end` (exclusive, absent = unbounded). */
  datatype SourcingCondition = SourcingCondition(start: int, end: Option<int>, criteria: EventCriteria)

  /**
   * The write-side gate of an append. `NoAppendCondition` is the singleton of the
   * class of that name; `DefaultAppendCondition` stands for the record that
   * `AppendCondition.from` builds, which is not part of this model beyond its two accessors.
   */
  datatype AppendCondition =
    | NoAppendCondition
    | DefaultAppendCondition(marker: int, filter: EventCriteria)
  {
    /** `consistencyMarker()`: -1 for the no-append condition, meaning "no marker". */
    function ConsistencyMarker(): (m: int)
      ensures NoAppendCondition? ==> m == -1
    {
      match this
      case NoAppendCondition => -1
      case DefaultAppendCondition(m, _) => m
    }

    /** `criteria()`: no types and no indices for the no-append condition. */
    function Criteria(): (c: EventCriteria)
      ensures NoAppendCondition? ==> c.types == {} && c.indices == {}
    {
      match this
      case NoAppendCondition => NO_CRITERIA
      case DefaultAppendCondition(_, c) => c
    }

    /** `NoAppendCondition.with`: the receiver plays no part, the result is `from(sc)`. */
    function With(sc: SourcingCondition): (r: AppendCondition)
      requires NoAppendCondition?
      ensures r.DefaultAppendCondition?
      ensures r.Criteria() == sc.criteria
      ensures r.ConsistencyMarker() == -1
    {
      From(sc)
    }

    /** `NoAppendCondition.withMarker`: a marker cannot be attached when there are no criteria. */
    function WithMarker(consistencyMarker: int): (r: Result<AppendCondition, Error>)
      requires NoAppendCondition?
      ensures r.Failure? && r.error.UnsupportedOperation?
    {
      Failure(UnsupportedOperation("Cannot add a consistency marker without any criteria"))
    }
  }

  /** `NoAppendCondition.INSTANCE`. */
  const INSTANCE: AppendCondition := NoAppendCondition

  /**
   * Assumed semantics of `AppendCondition.from(sc)`: a condition with the sourcing
   * condition's criteria and no consistency marker yet (-1).
   */
  function From(sc: SourcingCondition): AppendCondition {
    DefaultAppendCondition(-1, sc.criteria)
  }

  /** The shared instance reports marker -1 and no criteria. */
  lemma InstanceAccessors()
    ensures INSTANCE.ConsistencyMarker() == -1
    ensures INSTANCE.Criteria() == NO_CRITERIA
    ensures INSTANCE.Criteria().types == {} && INSTANCE.Criteria().indices == {}
  {
  }

  /** The private constructor leaves `INSTANCE` as the only no-append condition. */
  lemma SingleInstance(c: AppendCondition)
    requires c.NoAppendCondition?
    ensures c == INSTANCE
  {
  }

  /** `withMarker` has no success path: every marker is refused with the same error. */
  lemma WithMarkerNeverSucceeds(m1: int, m2: int)
    ensures INSTANCE.WithMarker(m1).Failure?
    ensures INSTANCE.WithMarker(m1) == INSTANCE.WithMarker(m2)
  {
  }
}

/** The condition for an open-ended read from a position. */
module StreamingConditions {
  import opened Wrappers
  import opened Criteria

  /**
   * A tracking token. `GlobalSequence` is `GlobalSequenceTrackingToken`;
   * `Unpositioned` stands for any token whose `position()` is empty.
   */
  datatype TrackingToken = GlobalSequence(index: int) | Unpositioned {
    function Position(): (p: Option<int>)
      ensures p.Some? <==> GlobalSequence?
      ensures GlobalSequence? ==> p.value == index
    {
      match this
      case GlobalSequence(i) => Some(i)
      case Unpositioned => None
    }
  }

  /**
   * `StreamingFrom` is the record `streamingFrom` builds; its `position` may be absent
   * (Java `null`, meaning "from the beginning of the store"). `FilteredStreaming`
   * stands for an implementation that overrides the default `criteria()`.
   */
  datatype StreamingCondition =
    | StreamingFrom(position: Option<TrackingToken>)
    | FilteredStreaming(position: Option<TrackingToken>, filter: EventCriteria)
  {
    /** The default method returns no criteria; only an overriding implementation filters. */
    function Criteria(): (c: EventCriteria)
      ensures StreamingFrom? ==> c == NO_CRITERIA
      ensures FilteredStreaming? ==> c == filter
    {
      match this
      case StreamingFrom(_) => NO_CRITERIA
      case FilteredStreaming(_, f) => f
    }
  }

  /** `StreamingCondition.streamingFrom(position)`. */
  function StreamingFromPosition(position: Option<TrackingToken>): (c: StreamingCondition)
    ensures c.position == position
    ensures c.Criteria() == NO_CRITERIA
  {
    StreamingFrom(position)
  }
}
