/**
  The library's function interfaces: a Function<T, R> may throw an
  SQLException, so it is a function into Result; a Supplier<R> takes no
  argument. `andThen` and `curry` only build new functions from old ones.
*/
module SqlFunction {
  import opened Jdbc

  type Function<!T, R> = T -> Result<R>

  type Supplier<R> = () -> Result<R>

  /** f.andThen(after): apply f, then `after` to its result; an exception of f skips `after`. */
  function AndThen<T, R, S>(f: Function<T, R>, after: Function<R, S>): Function<T, S>
  {
    t =>
      match f(t)
      case Failure(e) => Failure(e)
      case Success(r) => after(r)
  }

  /** f.curry(t): a supplier that applies f to t when it is asked, not before. */
  function Curry<T, R>(f: Function<T, R>, t: T): (s: Supplier<R>)
    ensures s() == f(t)
  {
    () => f(t)
  }

  /** The function that returns its argument without throwing. */
  function Identity<T>(): Function<T, T>
  {
    t => Success(t)
  }

  /** andThen is associative: how a chain is grouped does not change what it computes. */
  lemma AndThenAssociative<T, R, S, U>(f: Function<T, R>, g: Function<R, S>, h: Function<S, U>, t: T)
    ensures AndThen(AndThen(f, g), h)(t) == AndThen(f, AndThen(g, h))(t)
  {
    match f(t)
    case Failure(e) =>
    case Success(r) =>
      assert AndThen(f, g)(t) == g(r);
  }

  /** f.andThen(after).apply(t) is after.apply(f.apply(t)), with f's exception passed on. */
  lemma AndThenApply<T, R, S>(f: Function<T, R>, after: Function<R, S>, t: T)
    ensures f(t).Failure? ==> AndThen(f, after)(t) == Failure(f(t).error)
    ensures f(t).Success? ==> AndThen(f, after)(t) == after(f(t).value)
  {
  }

  /** The identity function is a unit of andThen on both sides. */
  lemma AndThenIdentity<T, R>(f: Function<T, R>, t: T)
    ensures AndThen(Identity<T>(), f)(t) == f(t)
    ensures AndThen(f, Identity<R>())(t) == f(t)
  {
  }

  /** When f throws, `after` is never consulted: any two continuations give the same failure. */
  lemma AndThenShortCircuits<T, R, S>(f: Function<T, R>, after: Function<R, S>, after': Function<R, S>, t: T)
    requires f(t).Failure?
    ensures AndThen(f, after)(t) == AndThen(f, after')(t) == Failure(f(t).error)
  {
  }

  /** Currying after composing is composing, then applying. */
  lemma CurryAndThen<T, R, S>(f: Function<T, R>, after: Function<R, S>, t: T)
    ensures Curry(AndThen(f, after), t)() ==
            (match Curry(f, t)() case Failure(e) => Failure(e) case Success(r) => after(r))
  {
  }
}
