/** Generic functions: `filter` and `map` over arrays, and `mapNode`, which
    updates the value of any kind of tree node. */
module Generics {

  /** `a` can be obtained from `b` by deleting elements, keeping the order. */
  ghost predicate IsSubsequence<T>(a: seq<T>, b: seq<T>)
    decreases |b|
  {
    if |a| == 0 then true
    else if |b| == 0 then false
    else (a[|a| - 1] == b[|b| - 1] && IsSubsequence(a[..|a| - 1], b[..|b| - 1]))
         || IsSubsequence(a, b[..|b| - 1])
  }

  /** `filter(array, f)`: the elements of `array` that satisfy `f`, in their
      original order. */
  function Filter<T>(xs: seq<T>, f: T -> bool): (r: seq<T>)
    ensures |r| <= |xs|
    ensures forall i :: 0 <= i < |r| ==> f(r[i])
    ensures forall i :: 0 <= i < |xs| && f(xs[i]) ==> xs[i] in r
    ensures IsSubsequence(r, xs)
    decreases |xs|
  {
    if |xs| == 0 then []
    else
      var init := xs[..|xs| - 1];
      var x := xs[|xs| - 1];
      var rest := Filter(init, f);
      assert forall i :: 0 <= i < |init| ==> xs[i] == init[i];
      if f(x) then
        var r := rest + [x];
        assert r[..|r| - 1] == rest;
        r
      else
        rest
  }

  /** Multiplicity: every element that passes the test occurs in the result
      as often as in the input, and no other element occurs. */
  lemma {:induction false} FilterMultiset<T>(xs: seq<T>, f: T -> bool)
    ensures multiset(Filter(xs, f)) <= multiset(xs)
    ensures forall i :: 0 <= i < |xs| ==>
              multiset(Filter(xs, f))[xs[i]] == if f(xs[i]) then multiset(xs)[xs[i]] else 0
    decreases |xs|
  {
    if |xs| > 0 {
      var init := xs[..|xs| - 1];
      var x := xs[|xs| - 1];
      FilterMultiset(init, f);
      assert xs == init + [x];
      assert multiset(xs) == multiset(init) + multiset{x};
      var r := Filter(xs, f);
      assert multiset(r) == multiset(Filter(init, f)) + (if f(x) then multiset{x} else multiset{});
      forall i | 0 <= i < |xs|
        ensures multiset(r)[xs[i]] == if f(xs[i]) then multiset(xs)[xs[i]] else 0
      {
        var y := xs[i];
        if y in multiset(init) {
          var j :| 0 <= j < |init| && init[j] == y;
        } else {
          assert multiset(Filter(init, f))[y] == 0;
        }
      }
    }
  }

  /** `filter` as the source writes it: a loop that pushes each element
      that passes the test. */
  method FilterLoop<T>(xs: seq<T>, f: T -> bool) returns (result: seq<T>)
    ensures result == Filter(xs, f)
  {
    result := [];
    var i := 0;
    while i < |xs|
      invariant 0 <= i <= |xs|
      invariant result == Filter(xs[..i], f)
    {
      assert xs[..i + 1][..i] == xs[..i];
      var item := xs[i];
      if f(item) {
        result := result + [item];
      }
      i := i + 1;
    }
    assert xs[..i] == xs;
  }

  /** Filtering distributes over concatenation. */
  lemma {:induction false} FilterAppend<T>(a: seq<T>, b: seq<T>, f: T -> bool)
    ensures Filter(a + b, f) == Filter(a, f) + Filter(b, f)
    decreases |b|
  {
    if |b| == 0 {
      assert a + b == a;
    } else {
      assert (a + b)[..|a + b| - 1] == a + b[..|b| - 1];
      FilterAppend(a, b[..|b| - 1], f);
    }
  }

  /** Filtering twice by the same test changes nothing more. */
  lemma {:induction false} FilterIdempotent<T>(xs: seq<T>, f: T -> bool)
    ensures Filter(Filter(xs, f), f) == Filter(xs, f)
    decreases |xs|
  {
    if |xs| > 0 {
      var init := xs[..|xs| - 1];
      var x := xs[|xs| - 1];
      FilterIdempotent(init, f);
      if f(x) {
        FilterAppend(Filter(init, f), [x], f);
        assert [x][..0] == [];
      }
    }
  }

  /** The calls shown for `filter`. */
  lemma FilterExamples()
    ensures Filter([1, 2, 3], (n: int) => n > 2) == [3]
    ensures Filter(["a", "b"], (s: string) => s != "b") == ["a"]
  {
    var f := (n: int) => n > 2;
    assert [1, 2, 3][..2] == [1, 2] && [1, 2][..1] == [1] && [1][..0] == [];
    assert Filter([1], f) == [];
    assert Filter([1, 2], f) == [];
    var g := (s: string) => s != "b";
    assert ["a", "b"][..1] == ["a"] && ["a"][..0] == [];
    assert Filter(["a"], g) == ["a"];
  }

  /** `map(array, f)`: `f` applied to every element, position by position. */
  function Map<T, U>(xs: seq<T>, f: T -> U): (r: seq<U>)
    ensures |r| == |xs|
    ensures forall i :: 0 <= i < |r| ==> r[i] == f(xs[i])
    decreases |xs|
  {
    if |xs| == 0 then [] else Map(xs[..|xs| - 1], f) + [f(xs[|xs| - 1])]
  }

  /** `map` as the source writes it: a loop assigning `result[i] = f(array[i])`. */
  method MapLoop<T, U>(xs: seq<T>, f: T -> U) returns (result: seq<U>)
    ensures result == Map(xs, f)
  {
    result := [];
    var i := 0;
    while i < |xs|
      invariant 0 <= i <= |xs|
      invariant |result| == i
      invariant forall j :: 0 <= j < i ==> result[j] == f(xs[j])
    {
      result := result + [f(xs[i])];
      i := i + 1;
    }
  }

  /** Mapping twice is mapping once by the composition. */
  lemma MapCompose<T, U, V>(xs: seq<T>, f: T -> U, g: U -> V)
    ensures Map(Map(xs, f), g) == Map(xs, x => g(f(x)))
  {
  }

  /** The three node shapes: a plain node, a leaf (`isLeaf: true`), and an
      inner node with its children. */
  datatype TreeNode =
    | Plain(value: string)
    | Leaf(value: string)
    | Inner(value: string, children: seq<TreeNode>)

  /** An inner node has one or two children. */
  ghost predicate WellFormed(n: TreeNode)
  {
    n.Inner? ==> 1 <= |n.children| <= 2
  }

  /** `mapNode(node, f)`: a copy of the node with `f` applied to its value;
      the shape and every other field are kept. */
  function MapNode(node: TreeNode, f: string -> string): (r: TreeNode)
    ensures r.value == f(node.value)
    ensures r.Plain? == node.Plain? && r.Leaf? == node.Leaf? && r.Inner? == node.Inner?
    ensures r.Inner? ==> r.children == node.children
    ensures WellFormed(node) ==> WellFormed(r)
  {
    node.(value := f(node.value))
  }

  /** Mapping by the identity gives the node back, and mapping twice is
      mapping by the composition. */
  lemma MapNodeLaws(node: TreeNode, f: string -> string, g: string -> string)
    ensures MapNode(node, s => s) == node
    ensures MapNode(MapNode(node, f), g) == MapNode(node, s => g(f(s)))
  {
  }
}
