/** A model of the synchronous part of `Result<T>`: an immutable value that is
    either a success carrying a value or a failure carrying an exception, and
    the combinators of `ResultEx` and `ResultExt` that branch on it.

    C#'s struct has two properties, `Ok` and `Error`, and is failed exactly when
    `Error` is non-null. The model keeps that reading (`Error()` is `None` for a
    success) but represents the two cases as datatype constructors.

    A C# `Action` is run for its effect only. Here an action is a function that
    describes the effect it would perform; a combinator that may run an action
    also returns `Some(effect)` when it runs it and `None` when it does not. */
module Validation {

  import opened Options

  /** The exceptions a failed result carries. C# compares exception objects by
      reference; here two exceptions with the same message are equal. No
      property below depends on telling such exceptions apart. */
  datatype Exception = Exception(message: string)

  datatype Result<+T> = Ok(value: T) | Failure(error: Exception) {

    /** The `Error` property: the exception of a failed result, null otherwise. */
    function Error(): (e: Option<Exception>)
      ensures e.Some? <==> Failure?
      ensures e.Some? ==> e.value == error
    {
      match this
      case Ok(_) => None
      case Failure(err) => Some(err)
    }

    /** `IsFailed` is `Error != null`. */
    predicate IsFailed()
      ensures IsFailed() <==> Failure?
    {
      Error().Some?
    }

    /** `IsOk` is `!IsFailed`. */
    predicate IsOk()
      ensures IsOk() <==> Ok?
    {
      !IsFailed()
    }

    /** `Match(okMap, failureMap)`, on the struct and as the `ResultExt`
        extension: `okMap` of the value when Ok, `failureMap` of the error
        otherwise. The `void` overload taking two actions is this function
        with the type of effects for `R`. */
    function Match<R>(okMap: T -> R, failureMap: Exception -> R): (m: R)
      ensures IsOk() ==> m == okMap(value)
      ensures IsFailed() ==> m == failureMap(Error().value)
    {
      if IsOk() then okMap(value) else failureMap(error)
    }
  }

  /** `ResultEx.Ok(value)` together with the implicit conversion of the
      `Result.Ok<T>` tag to `Result<T>`. */
  function MakeOk<T>(v: T): (r: Result<T>)
    ensures r.IsOk() && !r.IsFailed()
    ensures r.Error() == None
    ensures r.Match(x => Some(x), e => None) == Some(v)
  {
    Ok(v)
  }

  /** `ResultEx.Failure(error)` together with the implicit conversion of the
      `Result.Failure` tag to `Result<T>`. */
  function MakeFailure<T>(e: Exception): (r: Result<T>)
    ensures r.IsFailed() && !r.IsOk()
    ensures r.Error() == Some(e)
  {
    Failure(e)
  }

  /** `ResultExt.OnSuccess(result, map)`. */
  function OnSuccess<T, R>(r: Result<T>, f: T -> R): (s: Result<R>)
    ensures s.IsOk() <==> r.IsOk()
    ensures r.IsFailed() ==> s.Error() == r.Error()
    ensures r.IsOk() ==> s.Match(x => Some(x), e => None) == Some(f(r.value))
  {
    if r.IsFailed() then MakeFailure(r.error) else MakeOk(f(r.value))
  }

  /** `ResultExt.OnFailure(result, action)`: the effect of `action(error)`
      happens when the result failed; the result itself is returned as it is. */
  function OnFailure<T, A>(r: Result<T>, action: Exception -> A): (o: (Result<T>, Option<A>))
    ensures o.0 == r
    ensures o.1.Some? <==> r.IsFailed()
    ensures r.IsFailed() ==> o.1.value == action(r.Error().value)
  {
    if r.IsFailed() then (r, Some(action(r.error))) else (r, None)
  }

  /** `ResultExt.Bind(result, map)`. */
  function Bind<T, R>(r: Result<T>, f: T -> Result<R>): (b: Result<R>)
    ensures r.IsFailed() ==> b.IsFailed() && b.Error() == r.Error()
    ensures r.IsOk() ==> b == f(r.value)
  {
    if r.IsFailed() then Failure(r.error) else f(r.value)
  }

  /** `ResultExt.Map(result, map)`: the mapped value is converted implicitly
      to a successful `Result<R>`, the error to a failed one. */
  function Map<T, R>(r: Result<T>, f: T -> R): (m: Result<R>)
    ensures m.IsOk() <==> r.IsOk()
    ensures r.IsFailed() ==> m.Error() == r.Error()
    ensures r.IsOk() ==> m.Match(x => Some(x), e => None) == Some(f(r.value))
  {
    if r.IsOk() then Ok(f(r.value)) else Failure(r.error)
  }

  /** `ResultExt.BiMap(result, mapOk, mapError)`: both branches produce an
      `R`, which converts implicitly to a successful `Result<R>`. */
  function BiMap<T, R>(r: Result<T>, mapOk: T -> R, mapError: Exception -> R): (b: Result<R>)
    ensures b.IsOk()
    ensures r.IsFailed() ==> b.Match(x => Some(x), e => None) == Some(mapError(r.Error().value))
    ensures r.IsOk() ==> b.Match(x => Some(x), e => None) == Some(mapOk(r.value))
  {
    if r.IsFailed() then Ok(mapError(r.error)) else Ok(mapOk(r.value))
  }

  /** The second `ResultExt.BiMap` overload, whose error branch is an action:
      it runs the action and returns the original error as a failure. */
  function BiMapAction<T, R, A>(r: Result<T>, mapOk: T -> R, action: Exception -> A): (b: (Result<R>, Option<A>))
    ensures b.0.IsOk() <==> r.IsOk()
    ensures r.IsFailed() ==> b.0.Error() == r.Error() && b.1 == Some(action(r.Error().value))
    ensures r.IsOk() ==> b.0.Match(x => Some(x), e => None) == Some(mapOk(r.value)) && b.1 == None
  {
    if r.IsFailed() then (Failure(r.error), Some(action(r.error))) else (Ok(mapOk(r.value)), None)
  }

  // Properties of the representation

  lemma FailedIffErrorPresent<T>(r: Result<T>)
    ensures r.IsFailed() <==> r.Error().Some?
    ensures r.IsOk() <==> !r.IsFailed()
    ensures r.IsOk() <==> r.Ok?
  {
  }

  lemma MatchBranches<T, R>(r: Result<T>, okMap: T -> R, failureMap: Exception -> R)
    ensures r.IsOk() ==> r.Match(okMap, failureMap) == okMap(r.value)
    ensures r.IsFailed() ==> r.Match(okMap, failureMap) == failureMap(r.error)
  {
  }

  /** Matching with the two constructors rebuilds the result. */
  lemma MatchWithConstructors<T>(r: Result<T>)
    ensures r.Match(x => MakeOk(x), e => MakeFailure(e)) == r
  {
  }

  // Bind: short-circuiting and the monad laws

  lemma BindShortCircuits<T, R>(r: Result<T>, f: T -> Result<R>)
    requires r.IsFailed()
    ensures Bind(r, f).IsFailed()
    ensures Bind(r, f).Error() == r.Error()
  {
  }

  lemma BindLeftIdentity<T, R>(x: T, f: T -> Result<R>)
    ensures Bind(MakeOk(x), f) == f(x)
  {
  }

  lemma BindRightIdentity<T>(r: Result<T>)
    ensures Bind(r, x => MakeOk(x)) == r
  {
  }

  lemma BindAssociative<T, U, R>(r: Result<T>, f: T -> Result<U>, g: U -> Result<R>)
    ensures Bind(Bind(r, f), g) == Bind(r, x => Bind(f(x), g))
  {
  }

  // OnSuccess and Map

  lemma OnSuccessIsMap<T, R>(r: Result<T>, f: T -> R)
    ensures OnSuccess(r, f) == Map(r, f)
  {
  }

  lemma MapKeepsErrorOrMapsValue<T, R>(r: Result<T>, f: T -> R)
    ensures r.IsFailed() ==> Map(r, f).IsFailed() && Map(r, f).Error() == r.Error()
    ensures r.IsOk() ==> Map(r, f) == MakeOk(f(r.value))
  {
  }

  /** Map is Bind followed by the success constructor. */
  lemma MapIsBindOk<T, R>(r: Result<T>, f: T -> R)
    ensures Map(r, f) == Bind(r, x => MakeOk(f(x)))
  {
  }

  lemma MapIdentity<T>(r: Result<T>)
    ensures Map(r, x => x) == r
  {
  }

  lemma MapComposes<T, U, R>(r: Result<T>, f: T -> U, g: U -> R)
    ensures Map(Map(r, f), g) == Map(r, x => g(f(x)))
  {
  }

  // OnFailure

  lemma OnFailureKeepsResult<T, A>(r: Result<T>, action: Exception -> A)
    ensures OnFailure(r, action).0 == r
    ensures OnFailure(r, action).1.Some? <==> r.IsFailed()
    ensures r.IsFailed() ==> OnFailure(r, action).1 == Some(action(r.error))
  {
  }

  // BiMap

  lemma BiMapAlwaysOk<T, R>(r: Result<T>, mapOk: T -> R, mapError: Exception -> R)
    ensures BiMap(r, mapOk, mapError).IsOk()
    ensures BiMap(r, mapOk, mapError) == MakeOk(r.Match(mapOk, mapError))
  {
  }

  lemma BiMapActionKeepsError<T, R, A>(r: Result<T>, mapOk: T -> R, action: Exception -> A)
    ensures BiMapAction(r, mapOk, action).0 == Map(r, mapOk)
    ensures BiMapAction(r, mapOk, action).1.Some? <==> r.IsFailed()
    ensures r.IsFailed() ==> BiMapAction(r, mapOk, action).1 == Some(action(r.error))
  {
  }
}
