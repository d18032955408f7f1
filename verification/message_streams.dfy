/**
 * Message streams that hold at most one entry — the failed stream and the single-value
 * stream — and the entry record they carry.
 *
 * A `CompletableFuture` is a completed `Future` (pending computation is not modelled);
 * a `Flux` is the finite sequence it emits followed by an optional terminal error. A Java
 * `null` entry is `None`, which is why mappers and accumulators see `Option` entries.
 * A dependent stage (`thenApply`) records a failure as a `CompletionException`, and
 * `Mono.fromFuture` signals that exception's cause.
 */
module MessageStreams {
  import opened Wrappers
  import opened Errors

  /**
   * How a dependent stage completes when its source failed with `e`: a `CompletionException`
   * is passed on as it is, any other error is wrapped in one.
   */
  function Wrapped(e: Error): Error {
    if e.Completion? then e else Completion(e)
  }

  /** What `Mono.fromFuture` signals for a future that failed with `e`: the cause of a `CompletionException`, any other error as it is. */
  function Unwrapped(e: Error): Error {
    if e.Completion? then e.cause else e
  }

  /**
   * Wrapping happens at most once, and unwrapping undoes it: the error a flux view signals
   * does not change however many stages a failure passes through.
   */
  lemma WrapUnwrap(e: Error)
    ensures Wrapped(e).Completion?
    ensures Wrapped(Wrapped(e)) == Wrapped(e)
    ensures Unwrapped(Wrapped(e)) == Unwrapped(e)
    ensures !e.Completion? ==> Unwrapped(Wrapped(e)) == e
  {
  }

  /** A completed `CompletableFuture`: a value, or an exceptional completion. */
  datatype Future<T> = Completed(value: T) | FailedFuture(error: Error) {

    /** `thenApply(f)`: `f` runs on a value; a failure completes the stage with a `CompletionException`. */
    function ThenApply<U>(f: T -> U): Future<U> {
      match this
      case Completed(v) => Completed(f(v))
      case FailedFuture(e) => FailedFuture(Wrapped(e))
    }
  }

  /** What a `Flux` emits: its items, then either normal completion (`None`) or an error. */
  datatype Flux<T> = Flux(items: seq<T>, failure: Option<Error>)

  /** The first item of a flux, or its error, or `null` when it completes empty. */
  function FirstOf<T>(f: Flux<T>): Future<Option<T>> {
    if |f.items| > 0 then Completed(Some(f.items[0]))
    else match f.failure
      case Some(e) => FailedFuture(e)
      case None => Completed(None)
  }

  function FoldLeft<R, T>(acc: (R, T) -> R, r: R, items: seq<T>): R
    decreases |items|
  {
    if items == [] then r else FoldLeft(acc, acc(r, items[0]), items[1..])
  }

  /** Reducing a flux: fold its items left to right unless it ends in an error. */
  function FoldFlux<R, T>(f: Flux<T>, identity: R, acc: (R, T) -> R): Future<R> {
    match f.failure
    case Some(e) => FailedFuture(e)
    case None => Completed(FoldLeft(acc, identity, f.items))
  }

  // ---------------------------------------------------------------------------
  // SimpleEntry

  /** The record `SimpleEntry(message)`. */
  datatype SimpleEntry<M> = SimpleEntry(message: M) {

    /** `map(mapper)`: a new entry holding the mapped message. */
    function Map<RM>(mapper: M -> RM): (r: SimpleEntry<RM>)
      ensures r.message == mapper(message)
    {
      SimpleEntry(mapper(message))
    }
  }

  /** Mapping with the identity yields an equal record. */
  lemma EntryMapIdentity<M>(e: SimpleEntry<M>)
    ensures e.Map(x => x) == e
  {
  }

  /** Mapping twice is mapping once with the composition. */
  lemma EntryMapComposition<M, N, P>(e: SimpleEntry<M>, f: M -> N, g: N -> P)
    ensures e.Map(f).Map(g) == e.Map(x => g(f(x)))
  {
  }

  // ---------------------------------------------------------------------------
  // FailedMessageStream

  /** A stream that completes exceptionally with `error` and carries no entries. */
  datatype FailedMessageStream<E> = FailedMessageStream(error: Error) {

    /** `asCompletableFuture()`: always completed exceptionally with the stored error. */
    function AsCompletableFuture(): (r: Future<Option<E>>)
      ensures r.FailedFuture? && r.error == error
    {
      FailedFuture(error)
    }

    /** `asFlux()`: an error signal with the stored error and no items. */
    function AsFlux(): (r: Flux<E>)
      ensures r.items == [] && r.failure == Some(error)
    {
      Flux([], Some(error))
    }

    /** `map(mapper)`: this very stream, re-typed; the mapper is never applied. */
    function Map<F>(mapper: Option<E> -> Option<F>): (r: FailedMessageStream<F>)
      ensures r.error == error
    {
      FailedMessageStream(error)
    }

    /** `reduce(identity, accumulator)`: fails with the stored error; the accumulator is never applied. */
    function Reduce<R>(identity: R, accumulator: (R, Option<E>) -> R): (r: Future<R>)
      ensures r == FailedFuture(error)
    {
      FailedFuture(error)
    }

    /** `whenComplete(handler)`: this stream, unchanged; the handler is not run. */
    function WhenComplete<H>(completeHandler: H): (r: FailedMessageStream<E>)
      ensures r == this
    {
      this
    }
  }

  /** What `map` returns does not depend on the mapper: it is never invoked. */
  lemma FailedMapIgnoresMapper<E, F>(s: FailedMessageStream<E>, f: Option<E> -> Option<F>, g: Option<E> -> Option<F>)
    ensures s.Map(f) == s.Map(g)
    ensures s.Map(f).AsCompletableFuture() == FailedFuture(s.error)
  {
  }

  /** What `reduce` returns depends neither on the identity nor on the accumulator. */
  lemma FailedReduceIgnoresAccumulator<E, R>(s: FailedMessageStream<E>, id1: R, acc1: (R, Option<E>) -> R,
                                            id2: R, acc2: (R, Option<E>) -> R)
    ensures s.Reduce(id1, acc1) == s.Reduce(id2, acc2)
  {
  }

  /** Any number of `map` calls in a row. */
  function MapFailedChain<E>(s: FailedMessageStream<E>, mappers: seq<Option<E> -> Option<E>>): FailedMessageStream<E>
    decreases |mappers|
  {
    if mappers == [] then s else MapFailedChain(s.Map(mappers[0]), mappers[1..])
  }

  /** A chain of maps on a failed stream is the same failed stream. */
  lemma {:induction false} FailedMapChainKeepsError<E>(s: FailedMessageStream<E>, mappers: seq<Option<E> -> Option<E>>)
    ensures MapFailedChain(s, mappers) == s
    ensures MapFailedChain(s, mappers).AsCompletableFuture() == FailedFuture(s.error)
    decreases |mappers|
  {
    if mappers != [] {
      FailedMapChainKeepsError(s.Map(mappers[0]), mappers[1..]);
    }
  }

  /** Registering a completion handler alters none of the results the stream delivers. */
  lemma WhenCompleteKeepsResults<E, H, R>(s: FailedMessageStream<E>, h: H, id: R, acc: (R, Option<E>) -> R)
    ensures s.WhenComplete(h).AsCompletableFuture() == s.AsCompletableFuture() == FailedFuture(s.error)
    ensures s.WhenComplete(h).AsFlux() == s.AsFlux()
    ensures s.WhenComplete(h).Reduce(id, acc) == s.Reduce(id, acc)
  {
  }

  /** The flux view and the future view of a failed stream agree on the error. */
  lemma FailedFluxAgreesWithFuture<E, R>(s: FailedMessageStream<E>, identity: R, accumulator: (R, E) -> R)
    ensures FirstOf(s.AsFlux()) == s.AsCompletableFuture()
    ensures FoldFlux(s.AsFlux(), identity, accumulator) == FailedFuture(s.error)
  {
  }

  // ---------------------------------------------------------------------------
  // SingleValueMessageStream

  /** A stream whose single entry (possibly `null`) is the outcome of `source`. */
  datatype SingleValueMessageStream<E> = SingleValueMessageStream(source: Future<Option<E>>) {

    /** `asCompletableFuture()`: the source itself. */
    function AsCompletableFuture(): (r: Future<Option<E>>)
      ensures r == source
    {
      source
    }

    /**
     * `asFlux()` through `Mono.fromFuture`: the one entry then completion, nothing for a
     * `null` entry, or the source's error with a `CompletionException` unwrapped.
     */
    function AsFlux(): (r: Flux<E>)
      ensures |r.items| <= 1
      ensures r.failure.Some? <==> source.FailedFuture?
      ensures source.FailedFuture? ==> r.items == [] && r.failure.value == Unwrapped(source.error)
      ensures source.FailedFuture? && !source.error.Completion? ==> r.failure.value == source.error
      ensures source.Completed? ==> r.items == (if source.value.Some? then [source.value.value] else [])
    {
      match source
      case FailedFuture(e) => Flux([], Some(Unwrapped(e)))
      case Completed(None) => Flux([], None)
      case Completed(Some(v)) => Flux([v], None)
    }

    /**
     * `map(mapper)`: a single-value stream over `source.thenApply(mapper)`. A failed source
     * gives a future holding a `CompletionException` whose cause is the original failure.
     */
    function Map<F>(mapper: Option<E> -> Option<F>): (r: SingleValueMessageStream<F>)
      ensures source.Completed? ==> r.source == Completed(mapper(source.value))
      ensures source.FailedFuture? ==>
        && r.source.FailedFuture?
        && r.source.error.Completion?
        && Unwrapped(r.source.error) == Unwrapped(source.error)
    {
      SingleValueMessageStream(source.ThenApply(mapper))
    }

    /**
     * `reduce(identity, accumulator)`: the accumulator applied once, to the identity and the
     * entry; a failed source gives a `CompletionException` whose cause is the original failure.
     */
    function Reduce<R>(identity: R, accumulator: (R, Option<E>) -> R): (r: Future<R>)
      ensures source.Completed? ==> r == Completed(accumulator(identity, source.value))
      ensures source.FailedFuture? ==>
        && r.FailedFuture?
        && r.error.Completion?
        && Unwrapped(r.error) == Unwrapped(source.error)
    {
      source.ThenApply(m => accumulator(identity, m))
    }
  }

  /** The constructor taking an entry: a stream whose future is already completed with it. */
  function FromEntry<E>(entry: Option<E>): (s: SingleValueMessageStream<E>)
    ensures s.AsCompletableFuture() == Completed(entry)
  {
    SingleValueMessageStream(Completed(entry))
  }

  /** The constructor taking a future: the future becomes the source as is. */
  function FromFuture<E>(source: Future<Option<E>>): (s: SingleValueMessageStream<E>)
    ensures s.AsCompletableFuture() == source
  {
    SingleValueMessageStream(source)
  }

  /** Mapping twice is mapping once with the composition. */
  lemma SingleMapFusion<E, F, G>(s: SingleValueMessageStream<E>, f: Option<E> -> Option<F>, g: Option<F> -> Option<G>)
    ensures s.Map(f).Map(g) == s.Map(x => g(f(x)))
  {
  }

  /**
   * On a failed source, `map` and `reduce` depend on neither function: their futures hold the
   * failure wrapped in a `CompletionException`, and the mapped stream's flux view signals
   * the same error as the original's.
   */
  lemma SingleFailureIgnoresFunctions<E, F, R>(s: SingleValueMessageStream<E>,
                                              f: Option<E> -> Option<F>, g: Option<E> -> Option<F>,
                                              id: R, acc1: (R, Option<E>) -> R, acc2: (R, Option<E>) -> R)
    requires s.source.FailedFuture?
    ensures s.Map(f) == s.Map(g)
    ensures s.Map(f).AsCompletableFuture() == FailedFuture(Wrapped(s.source.error))
    ensures s.Map(f).AsFlux().failure == s.AsFlux().failure
    ensures s.Reduce(id, acc1) == s.Reduce(id, acc2) == FailedFuture(Wrapped(s.source.error))
  {
  }

  /** The mappers of a chain applied one after the other. */
  function ApplyAll<E>(mappers: seq<Option<E> -> Option<E>>, x: Option<E>): Option<E>
    decreases |mappers|
  {
    if mappers == [] then x else ApplyAll(mappers[1..], mappers[0](x))
  }

  /** Any number of `map` calls in a row. */
  function MapSingleChain<E>(s: SingleValueMessageStream<E>, mappers: seq<Option<E> -> Option<E>>): SingleValueMessageStream<E>
    decreases |mappers|
  {
    if mappers == [] then s else MapSingleChain(s.Map(mappers[0]), mappers[1..])
  }

  /**
   * A chain of maps on a single-value stream applies the mappers in order to the entry. On a
   * failed source the first map wraps the failure once, later maps keep it, and the flux view
   * signals the same error all along.
   */
  lemma {:induction false} SingleMapChain<E>(s: SingleValueMessageStream<E>, mappers: seq<Option<E> -> Option<E>>)
    ensures s.source.Completed? ==> MapSingleChain(s, mappers).source == Completed(ApplyAll(mappers, s.source.value))
    ensures s.source.FailedFuture? && mappers != [] ==>
      MapSingleChain(s, mappers).source == FailedFuture(Wrapped(s.source.error))
    ensures s.source.FailedFuture? ==> MapSingleChain(s, mappers).AsFlux() == s.AsFlux()
    decreases |mappers|
  {
    if mappers != [] {
      var t := s.Map(mappers[0]);
      SingleMapChain(t, mappers[1..]);
      if s.source.FailedFuture? {
        WrapUnwrap(s.source.error);
      }
    }
  }

  /**
   * The first signal of the flux view is what the future view completes with, except that a
   * `CompletionException` in the future reaches the flux as its cause.
   */
  lemma SingleFluxAgreesWithFuture<E>(s: SingleValueMessageStream<E>)
    ensures s.source.Completed? ==> FirstOf(s.AsFlux()) == s.AsCompletableFuture()
    ensures s.source.FailedFuture? ==> FirstOf(s.AsFlux()) == FailedFuture(Unwrapped(s.AsCompletableFuture().error))
    ensures s.source.FailedFuture? && !s.source.error.Completion? ==> FirstOf(s.AsFlux()) == s.AsCompletableFuture()
  {
  }

  /**
   * For a non-null entry `reduce` is the left fold of the flux view. For a failed source both
   * fail, the fold with the cause of the `CompletionException` the reduction holds. For a
   * `null` entry the accumulator still receives the `null` although the flux is empty.
   */
  lemma SingleReduceFoldsFlux<E, R>(s: SingleValueMessageStream<E>, identity: R, acc: (R, Option<E>) -> R)
    ensures s.source.Completed? && s.source.value.Some? ==>
      s.Reduce(identity, acc) == FoldFlux(s.AsFlux(), identity, (r: R, x: E) => acc(r, Some(x)))
    ensures s.source.FailedFuture? ==>
      && s.Reduce(identity, acc).FailedFuture?
      && s.Reduce(identity, acc).error.Completion?
      && FoldFlux(s.AsFlux(), identity, (r: R, x: E) => acc(r, Some(x)))
         == FailedFuture(Unwrapped(s.Reduce(identity, acc).error))
    ensures s.source == Completed(None) ==>
      s.Reduce(identity, acc) == Completed(acc(identity, None))
      && FoldFlux(s.AsFlux(), identity, (r: R, x: E) => acc(r, Some(x))) == Completed(identity)
  {
    var a := (r: R, x: E) => acc(r, Some(x));
    if s.source.Completed? && s.source.value.Some? {
      var v := s.source.value.value;
      assert s.AsFlux().items == [v];
      assert FoldLeft(a, identity, [v]) == FoldLeft(a, a(identity, v), []);
    }
  }
}
