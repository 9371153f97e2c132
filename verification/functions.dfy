/** Functions: declaration forms, variadic sums, calling, iterators and a
    strict-equality test. */
module Functions {

  /** `greet`: "hello " followed by the name. */
  function Greet(name: string): (r: string)
    ensures |r| == |name| + 6
    ensures r[..6] == "hello " && r[6..] == name
  {
    "hello " + name
  }

  /** Different names get different greetings. */
  lemma GreetInjective(a: string, b: string)
    ensures Greet(a) == Greet(b) ==> a == b
  {
    if Greet(a) == Greet(b) {
      assert a == Greet(a)[6..];
    }
  }

  /** `numbers.reduce((total, n) => total + n, 0)`: a left fold from 0. */
  function Sum(xs: seq<real>): real
    decreases |xs|
  {
    if |xs| == 0 then 0.0 else Sum(xs[..|xs| - 1]) + xs[|xs| - 1]
  }

  /** The same total summed from the right; an independent reference. */
  function SumRight(xs: seq<real>): real
    decreases |xs|
  {
    if |xs| == 0 then 0.0 else xs[0] + SumRight(xs[1..])
  }

  /** Summing a concatenation sums the pieces. */
  lemma {:induction false} SumAppend(a: seq<real>, b: seq<real>)
    ensures Sum(a + b) == Sum(a) + Sum(b)
    decreases |b|
  {
    if |b| == 0 {
      assert a + b == a;
    } else {
      assert (a + b)[..|a + b| - 1] == a + b[..|b| - 1];
      SumAppend(a, b[..|b| - 1]);
    }
  }

  /** In exact arithmetic the fold order does not matter. */
  lemma {:induction false} SumIsSumRight(xs: seq<real>)
    ensures Sum(xs) == SumRight(xs)
    decreases |xs|
  {
    if |xs| > 0 {
      SumIsSumRight(xs[1..]);
      SumAppend([xs[0]], xs[1..]);
      assert [xs[0]] + xs[1..] == xs;
      assert Sum([xs[0]]) == xs[0] by { assert [xs[0]][..0] == []; }
    }
  }

  /** `sumVariadic(...numbers)`: the running total over the arguments; 0 for
      none. */
  method SumVariadic(numbers: seq<real>) returns (total: real)
    ensures total == SumRight(numbers)
    ensures |numbers| == 0 ==> total == 0.0
  {
    total := 0.0;
    var i := 0;
    while i < |numbers|
      invariant 0 <= i <= |numbers|
      invariant total == Sum(numbers[..i])
    {
      assert numbers[..i + 1][..i] == numbers[..i];
      total := total + numbers[i];
      i := i + 1;
    }
    assert numbers[..i] == numbers;
    SumIsSumRight(numbers);
  }

  /** `add`. */
  function Add(a: real, b: real): real
  {
    a + b
  }

  /** `add(a, b)` is the variadic sum of the pair, and `add(10, 20)` is 30. */
  lemma AddIsPairSum(a: real, b: real)
    ensures Add(a, b) == SumRight([a, b])
    ensures Add(a, b) == Add(b, a)
    ensures Add(10.0, 20.0) == 30.0
  {
    assert [a, b][1..] == [b];
    assert [b][1..] == [];
    assert SumRight([b]) == b + SumRight([]);
  }

  /** `for (let n = lo; n <= hi; n++) yield n`. */
  function Yields(lo: int, hi: int): (r: seq<int>)
    ensures |r| == if lo <= hi then hi - lo + 1 else 0
    ensures forall i :: 0 <= i < |r| ==> r[i] == lo + i
    decreases hi - lo
  {
    if lo > hi then [] else [lo] + Yields(lo + 1, hi)
  }

  /** The `numbers` iterator, collected by spreading it: the generator loop
      run to completion. */
  method Numbers() returns (all: seq<int>)
    ensures all == Yields(1, 10)
  {
    all := [];
    var n := 1;
    while n <= 10
      invariant 1 <= n <= 11
      invariant |all| == n - 1
      invariant forall i :: 0 <= i < |all| ==> all[i] == i + 1
    {
      all := all + [n];
      n := n + 1;
    }
  }

  /** `let [one, two, ...rest] = numbers`: one is 1, two is 2, and rest
      holds 3 to 10 in order. */
  lemma NumbersDestructured()
    ensures var all := Yields(1, 10);
            all[0] == 1 && all[1] == 2 && all[2..] == Yields(3, 10)
            && all == [1, 2, 3, 4, 5, 6, 7, 8, 9, 10]
  {
    var all := Yields(1, 10);
    assert all[2..] == Yields(3, 10);
  }

  /** The primitive values `is` accepts: `string | boolean | number`. */
  datatype Primitive = Str(s: string) | Bool(b: bool) | Num(n: real)

  /** `is(a, b)`, i.e. `a === b`: same type, same value. */
  predicate Is(a: Primitive, b: Primitive)
  {
    match (a, b)
    case (Str(x), Str(y)) => x == y
    case (Bool(x), Bool(y)) => x == y
    case (Num(x), Num(y)) => x == y
    case _ => false
  }

  /** Strict equality on primitives is value equality: reflexive, symmetric
      and exact. */
  lemma IsIsEquality(a: Primitive, b: Primitive)
    ensures Is(a, b) <==> a == b
    ensures Is(a, a) && (Is(a, b) <==> Is(b, a))
  {
  }

  /** The calls shown for `is`, and the one the type checker rejects, which
      would compare a number with a string. */
  lemma IsExamples()
    ensures !Is(Str("string"), Str("otherstring"))
    ensures !Is(Bool(true), Bool(false))
    ensures Is(Num(42.0), Num(42.0))
    ensures !Is(Num(10.0), Str("foo"))
  {
    assert |"string"| != |"otherstring"|;
  }
}
