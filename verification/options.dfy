/** The `Option` container: `Some` wraps a value, `flatMap` chains a step
    that itself returns an option, and `getOrElse` extracts the value.
    `None` is not defined in the source; it closes the datatype, and the
    lemmas about it are kept apart from those about `Some`. */
module Options {

  datatype Option<T> = Some(value: T) | None {

    /** `flatMap(f)`: on `Some`, the option `f` gives for the wrapped value;
        `None` passes through without calling `f`. */
    function FlatMap<U>(f: T -> Option<U>): Option<U>
    {
      match this
      case Some(v) => f(v)
      case None => None
    }

    /** `getOrElse(d)`: the wrapped value; the default only for `None`. */
    function GetOrElse(default: T): T
    {
      match this
      case Some(v) => v
      case None => default
    }
  }

  /** `Some(v).getOrElse(d)` is `v` whatever the default. */
  lemma SomeGetOrElse<T>(v: T, d: T, e: T)
    ensures Some(v).GetOrElse(d) == v
    ensures Some(v).GetOrElse(d) == Some(v).GetOrElse(e)
  {
  }

  /** Left identity: `Some(v).flatMap(f)` is `f(v)`. */
  lemma SomeLeftIdentity<T, U>(v: T, f: T -> Option<U>)
    ensures Some(v).FlatMap(f) == f(v)
  {
  }

  /** Right identity: re-wrapping the value gives the same `Some`. */
  lemma SomeRightIdentity<T>(v: T)
    ensures Some(v).FlatMap(x => Some(x)) == Some(v)
  {
  }

  /** Associativity on `Some`: chaining `f` then `g` is chaining the single
      step that does both. */
  lemma SomeAssociativity<T, U, V>(v: T, f: T -> Option<U>, g: U -> Option<V>)
    ensures Some(v).FlatMap(f).FlatMap(g) == Some(v).FlatMap(x => f(x).FlatMap(g))
  {
  }

  /** Completion only: `None` yields the default, short-circuits `flatMap`,
      and the monad laws hold for every option, `None` included. */
  lemma NoneLaws<T, U, V>(o: Option<T>, d: T, f: T -> Option<U>, g: U -> Option<V>)
    ensures None.GetOrElse(d) == d
    ensures None.FlatMap(f) == None
    ensures o.FlatMap(x => Some(x)) == o
    ensures o.FlatMap(f).FlatMap(g) == o.FlatMap(x => f(x).FlatMap(g))
  {
  }

  /** Completion only: a step that doubles values above 3 and gives `None`
      otherwise, chained after `Some` and after `None`. */
  lemma ChainExamples()
    ensures var step := (x: int) => if x > 3 then Some(x * 2) else None;
            && Some(5).FlatMap(step).GetOrElse(0) == 10
            && Some(2).FlatMap(step).GetOrElse(0) == 0
            && None.FlatMap((x: int) => Some(x + 1)).GetOrElse(-1) == -1
  {
  }
}
