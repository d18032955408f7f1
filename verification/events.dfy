/** Event messages as the storage engine sees them. */
module Events {
  import opened Wrappers
  import opened Criteria

  /**
   * An event message. `indices` is present exactly when the message is an
   * `IndexedEventMessage`; the payload itself is opaque and only its type name matters.
   * Timestamps are instants on an integer time line.
   */
  datatype EventMessage = EventMessage(
    identifier: string,
    payloadType: string,
    timestamp: int,
    indices: Option<set<Index>>)
  {
    predicate IsIndexed() {
      indices.Some?
    }
  }

  /**
   * `IndexedEventMessage.asIndexedEvent(event, indices)`: the same message carrying
   * exactly the given index set.
   */
  function AsIndexedEvent(event: EventMessage, indices: set<Index>): (r: EventMessage)
    ensures r.IsIndexed() && r.indices.value == indices
    ensures r.identifier == event.identifier && r.payloadType == event.payloadType
    ensures r.timestamp == event.timestamp
  {
    event.(indices := Some(indices))
  }

  /** A stored event: the message together with the global sequence position of its token. */
  datatype TrackedEvent = Tracked(position: int, event: EventMessage)
}
