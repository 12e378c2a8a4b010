/** Function application, composition, currying and tuple projections
    (Utils.swift lines 16-50 and 370-375). Swift closures are modelled as
    Dafny's total arrow types: the source's closures are pure apart from
    effects this model does not see. */
module Functional {

  /** `x |> f`: forward application. */
  function Pipe<T, U>(x: T, f: T -> U): (r: U)
    ensures r == f(x)
  {
    f(x)
  }

  /** `f <| x`: backward application. */
  function PipeBack<T, U>(f: T -> U, x: T): (r: U)
    ensures r == f(x)
  {
    f(x)
  }

  /** `f >>> g`: left-to-right composition, apply f first. */
  function Compose<A(!new), B, C>(f: A -> B, g: B -> C): (r: A -> C)
    ensures forall x :: r(x) == g(f(x))
  {
    x => g(f(x))
  }

  /** `f <<< g`: right-to-left composition, apply g first. */
  function ComposeBack<A(!new), B, C>(f: B -> C, g: A -> B): (r: A -> C)
    ensures forall x :: r(x) == f(g(x))
  {
    x => f(g(x))
  }

  /** `curry`: turn a two-argument function into a chain of one-argument ones. */
  function Curry<A(!new), B(!new), C>(f: (A, B) -> C): (r: A -> B -> C)
    ensures forall a, b :: r(a)(b) == f(a, b)
  {
    a => b => f(a, b)
  }

  /** `curry2`: the same for a three-argument function. */
  function Curry2<A(!new), B(!new), C(!new), D>(f: (A, B, C) -> D): (r: A -> B -> C -> D)
    ensures forall a, b, c :: r(a)(b)(c) == f(a, b, c)
  {
    a => b => c => f(a, b, c)
  }

  /** `flip`: swap the two arguments of a function. */
  function Flip<A(!new), B(!new), C>(f: (A, B) -> C): (r: (B, A) -> C)
    ensures forall a, b :: r(b, a) == f(a, b)
  {
    (b, a) => f(a, b)
  }

  /** `fst`: first component of a pair. */
  function Fst<A, B>(t: (A, B)): (a: A)
    ensures t == (a, t.1)
  {
    t.0
  }

  /** `snd`: second component of a pair. */
  function Snd<A, B>(t: (A, B)): (b: B)
    ensures t == (t.0, b)
  {
    t.1
  }

  /** The two application operators agree, and piping through two functions
      is piping through their composition. */
  lemma PipeLaws<A(!new), B, C>(x: A, f: A -> B, g: B -> C)
    ensures Pipe(x, f) == PipeBack(f, x) == f(x)
    ensures Pipe(Pipe(x, f), g) == Pipe(x, Compose(f, g))
  {
  }

  /** `>>>` is associative, and `<<<` is `>>>` with its arguments swapped. */
  lemma ComposeLaws<A(!new), B(!new), C, D>(f: A -> B, g: B -> C, h: C -> D, x: A)
    ensures Compose(Compose(f, g), h)(x) == Compose(f, Compose(g, h))(x)
    ensures ComposeBack(g, f)(x) == Compose(f, g)(x) == g(f(x))
  {
  }

  /** A curried function applied to both arguments in turn gives what the
      original gives; `flip` undoes itself. */
  lemma CurryFlipLaws<A(!new), B(!new), C(!new), D>(f: (A, B) -> C, h: (A, B, C) -> D, a: A, b: B, c: C)
    ensures Curry(f)(a)(b) == f(a, b)
    ensures Curry2(h)(a)(b)(c) == h(a, b, c)
    ensures Flip(f)(b, a) == f(a, b)
    ensures Flip(Flip(f))(a, b) == f(a, b)
    ensures Curry(Flip(f))(b)(a) == f(a, b)
  {
  }

  /** `fst` and `snd` take a pair apart and nothing is lost. */
  lemma PairLaws<A, B>(t: (A, B), a: A, b: B)
    ensures (Fst(t), Snd(t)) == t
    ensures Fst((a, b)) == a && Snd((a, b)) == b
  {
  }
}
