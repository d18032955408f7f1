/**
 * Event criteria: a filter over an event's type name and its key/value indices.
 *
 * `EventCriteria` itself is not part of this model; only the two members the engine
 * consumes (`types()`, `indices()`) and `matchingIndices` are represented, the latter
 * under the stated assumption below.
 */
module Criteria {

  /** One key/value tag attached to an event. */
  datatype Index = Index(key: string, value: string)

  datatype EventCriteria = EventCriteria(types: set<string>, indices: set<Index>) {

    /**
     * Assumed semantics of `EventCriteria.matchingIndices`: criteria without index
     * matchers accept every index set; otherwise at least one of the criteria's
     * key/value pairs must occur among the event's indices.
     */
    predicate MatchingIndices(eventIndices: set<Index>) {
      indices == {} || indices * eventIndices != {}
    }
  }

  /** `EventCriteria.noCriteria()`: no type restriction and no index matchers. */
  const NO_CRITERIA: EventCriteria := EventCriteria({}, {})

  /** The no-criteria value accepts any index set. */
  lemma NoCriteriaMatchesAnyIndices(eventIndices: set<Index>)
    ensures NO_CRITERIA.MatchingIndices(eventIndices)
  {
  }
}
