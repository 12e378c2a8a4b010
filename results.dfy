/** The `Result` enum, its combinators and operators (Utils.swift lines
    52-129), and `sequence` (lines 215-229). Swift's `Error` is an
    existential protocol type; here it is the type parameter E, about which
    nothing is assumed. */
module Results {
  import opened Option
  import Arrays

  /** Either a value or the error that prevented one; never both. */
  datatype Result<+V, +E> = Success(value: V) | Failure(error: E)
  {
    /** `isSuccess` */
    predicate IsSuccess()
      ensures IsSuccess() <==> Success?
    {
      match this
      case Success(_) => true
      case Failure(_) => false
    }

    /** `isFailure`, defined as the negation of `isSuccess`. */
    predicate IsFailure()
      ensures IsFailure() <==> Failure?
    {
      !IsSuccess()
    }

    /** `value`: the payload of a success, nil for a failure. */
    function Value(): (r: Option<V>)
      ensures r.Some? <==> Success?
      ensures r.Some? ==> this == Success(r.value)
    {
      match this
      case Success(v) => Some(v)
      case Failure(_) => None
    }

    /** `error`: the cause of a failure, nil for a success. */
    function Error(): (r: Option<E>)
      ensures r.Some? <==> Failure?
      ensures r.Some? ==> this == Failure(r.value)
    {
      match this
      case Success(_) => None
      case Failure(e) => Some(e)
    }

    /** `map(f)`: transform the payload of a success. */
    function Map<T>(f: V -> T): (r: Result<T, E>)
      ensures this.Failure? ==> r == Failure(this.error)
      ensures this.Success? ==> r == Success(f(this.value))
    {
      match this
      case Success(v) => Success(f(v))
      case Failure(e) => Failure(e)
    }

    /** `flatMap(f)`: continue a success with the next fallible step. */
    function FlatMap<T>(f: V -> Result<T, E>): (r: Result<T, E>)
      ensures this.Failure? ==> r == Failure(this.error)
      ensures this.Success? ==> r == f(this.value)
    {
      match this
      case Success(v) => f(v)
      case Failure(e) => Failure(e)
    }
  }

  /** `mapError(f)`: translate the cause of a failure, through the `error`
      projection as the source does. The source's `f` returns another
      `Error`, and the result is again a `Result` over the existential
      `Error`, so the error type is unchanged here. */
  function MapError<V, E>(r: Result<V, E>, f: E -> E): (m: Result<V, E>)
    ensures r.Success? ==> m == r
    ensures r.Failure? ==> m == Failure(f(r.error))
  {
    match r.Error()
    case Some(e) => Failure(f(e))
    case None => r
  }

  /** `left >>= right` */
  function Bind<V, E, T>(left: Result<V, E>, right: V -> Result<T, E>): (r: Result<T, E>)
    ensures r == left.FlatMap(right)
  {
    left.FlatMap(right)
  }

  /** `f <^> left` */
  function Fmap<V, E, T>(f: V -> T, left: Result<V, E>): (r: Result<T, E>)
    ensures r == left.Map(f)
  {
    left.Map(f)
  }

  // ---------------------------------------------------------------------
  // Properties of the projections and combinators

  /** A result is exactly one of the two cases, and each projection is
      present exactly in its own case. */
  lemma ProjectionsAgree<V, E>(r: Result<V, E>)
    ensures r.IsFailure() == !r.IsSuccess()
    ensures r.IsSuccess() <==> r.Success?
    ensures r.Value().Some? <==> r.Success?
    ensures r.Error().Some? <==> r.Failure?
    ensures r.Value().Some? ==> r == Success(r.Value().value)
    ensures r.Error().Some? ==> r == Failure(r.Error().value)
  {
  }

  /** A failure passes through `map`, `flatMap`, `>>=` and `<^>` unchanged,
      whatever the function. */
  lemma FailureShortCircuits<V, E, T>(e: E, f: V -> T, g: V -> Result<T, E>)
    ensures Failure(e).Map(f) == Failure(e)
    ensures Failure(e).FlatMap(g) == Failure(e)
    ensures Bind(Failure(e), g) == Failure(e)
    ensures Fmap(f, Failure(e)) == Failure(e)
  {
  }

  /** `flatMap` obeys the monad laws with `success` as unit. */
  lemma MonadLaws<V, E, T, U>(v: V, r: Result<V, E>, f: V -> Result<T, E>, g: T -> Result<U, E>)
    ensures Success(v).FlatMap(f) == f(v)
    ensures r.FlatMap(x => Success(x)) == r
    ensures r.FlatMap(f).FlatMap(g) == r.FlatMap(x => f(x).FlatMap(g))
  {
  }

  /** `map` obeys the functor laws and is `flatMap` followed by `success`. */
  lemma FunctorLaws<V, E, T, U>(r: Result<V, E>, f: V -> T, g: T -> U)
    ensures r.Map(x => x) == r
    ensures r.Map(f).Map(g) == r.Map(x => g(f(x)))
    ensures r.Map(f) == r.FlatMap(x => Success(f(x)))
  {
  }

  /** `mapError` never touches a success, and composes on failures. */
  lemma MapErrorLaws<V, E>(r: Result<V, E>, f: E -> E, g: E -> E)
    ensures r.Success? ==> MapError(r, f) == r
    ensures MapError(MapError(r, f), g) == MapError(r, x => g(f(x)))
    ensures MapError(r, f).IsSuccess() == r.IsSuccess()
  {
  }

  // ---------------------------------------------------------------------
  // sequence

  /** The reference fold: the first failure from the left wins; otherwise
      every payload, in order. */
  function SequenceFold<A, E>(rs: seq<Result<A, E>>): (r: Result<seq<A>, E>)
    ensures r.Success? <==> forall i :: 0 <= i < |rs| ==> rs[i].Success?
    ensures r.Success? ==> |r.value| == |rs| && forall i :: 0 <= i < |rs| ==> rs[i] == Success(r.value[i])
    ensures forall k :: 0 <= k < |rs| && rs[k].Failure? && (forall j :: 0 <= j < k ==> rs[j].Success?) ==>
      r == Failure(rs[k].error)
  {
    if rs == [] then Success([])
    else
      match rs[0]
      case Failure(e) => Failure(e)
      case Success(v) => SequenceFold(rs[1..]).Map(vs => [v] + vs)
  }

  /** `sequence(array)`: first check whether every element succeeded; if
      not, scan for the first failure and return it; otherwise return every
      payload, unwrapped in order. */
  method Sequence<A, E>(rs: seq<Result<A, E>>) returns (r: Result<seq<A>, E>)
    ensures r == SequenceFold(rs)
  {
    var allSucceeded := Arrays.All(rs, (x: Result<A, E>) => x.IsSuccess());
    if !allSucceeded {
      for i := 0 to |rs|
        invariant forall j :: 0 <= j < i ==> rs[j].Success?
      {
        match rs[i]
        case Failure(e) =>
          return Failure(e);
        case Success(_) =>
      }
    }
    var values := seq(|rs|, i requires 0 <= i < |rs| && rs[i].Success? => rs[i].Value().value);
    r := Success(values);
    var expected := SequenceFold(rs);
    assert expected.value == values;
  }

  /** `sequence` on the empty array succeeds with the empty array. */
  lemma SequenceEmpty<A, E>()
    ensures SequenceFold<A, E>([]) == Success([])
  {
  }

  /** Prepending a success prepends its payload; prepending a failure makes
      that failure the answer. */
  lemma SequenceCons<A, E>(x: Result<A, E>, rs: seq<Result<A, E>>)
    ensures x.Failure? ==> SequenceFold([x] + rs) == Failure(x.error)
    ensures x.Success? ==> SequenceFold([x] + rs) == SequenceFold(rs).Map(vs => [x.value] + vs)
  {
    assert ([x] + rs)[1..] == rs;
  }
}
