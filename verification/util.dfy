/** Sequence helpers shared by the Python and TypeScript halves of the model: Python's
    list indexing (with negative indices counting from the end) and the two-argument
    `zip` of Typescript/src/util.ts. */
module Sequences {
  import opened Wrappers

  /** Python's `xs[i]`: `-|xs| <= i < |xs|` is valid, a negative index counts from the
      end, anything else raises `IndexError`. */
  function PyIndex<T>(xs: seq<T>, i: int): (r: Result<T>)
    ensures r.Success? <==> -|xs| <= i < |xs|
    ensures r.Failure? ==> r.error == IndexOutOfRange
    ensures 0 <= i < |xs| ==> r == Success(xs[i])
    ensures -|xs| <= i < 0 ==> r == Success(xs[|xs| + i])
  {
    if 0 <= i < |xs| then Success(xs[i])
    else if -|xs| <= i < 0 then Success(xs[|xs| + i])
    else Failure(IndexOutOfRange)
  }

  /** A JavaScript array read `xs[i]` that a later use requires to be defined: a missing
      element (any index outside `0 <= i < |xs|`, negative ones included) fails. */
  function JsIndex<T>(xs: seq<T>, i: int): (r: Result<T>)
    ensures r.Success? <==> 0 <= i < |xs|
    ensures r.Success? ==> r.value == xs[i]
    ensures r.Failure? ==> r.error == IndexOutOfRange
  {
    if 0 <= i < |xs| then Success(xs[i]) else Failure(IndexOutOfRange)
  }

  /** Python and JavaScript indexing agree on every index that is valid in both. */
  lemma PyIndexAgreesWithJsIndex<T>(xs: seq<T>, i: int)
    requires 0 <= i
    ensures PyIndex(xs, i) == JsIndex(xs, i)
  {
  }

  function Min(a: int, b: int): int {
    if a <= b then a else b
  }

  /** `zip` of util.ts: map over the shorter array, reading the longer one at the same
      index. */
  function Zip<T, U>(a: seq<T>, b: seq<U>): (r: seq<(T, U)>)
    ensures |r| == Min(|a|, |b|)
  {
    if |a| <= |b| then seq(|a|, i requires 0 <= i < |a| => (a[i], b[i]))
    else seq(|b|, i requires 0 <= i < |b| => (a[i], b[i]))
  }

  /** Whichever branch runs, element `i` pairs the two arrays' elements `i`, and the
      elements of the longer array past the shorter one's length are dropped. */
  lemma ZipElements<T, U>(a: seq<T>, b: seq<U>)
    ensures forall i :: 0 <= i < |Zip(a, b)| ==> i < |a| && i < |b| && Zip(a, b)[i] == (a[i], b[i])
    ensures |a| <= |b| ==> |Zip(a, b)| == |a|
    ensures |b| <= |a| ==> |Zip(a, b)| == |b|
  {
    var z := Zip(a, b);
    if |a| <= |b| {
      assert z == seq(|a|, i requires 0 <= i < |a| => (a[i], b[i]));
      assert forall i | 0 <= i < |z| :: i < |a| && i < |b| && z[i] == (a[i], b[i]);
    } else {
      assert z == seq(|b|, i requires 0 <= i < |b| => (a[i], b[i]));
      assert forall i | 0 <= i < |z| :: i < |a| && i < |b| && z[i] == (a[i], b[i]);
    }
  }

  /** A pair with its two components exchanged. */
  function Swap<T, U>(p: (T, U)): (U, T) {
    (p.1, p.0)
  }

  /** `zip(b, a)` is `zip(a, b)` with every pair swapped, even though the two calls can
      take different branches. */
  lemma ZipSwap<T, U>(a: seq<T>, b: seq<U>)
    ensures |Zip(b, a)| == |Zip(a, b)|
    ensures forall i :: 0 <= i < |Zip(a, b)| ==> Zip(b, a)[i] == Swap(Zip(a, b)[i])
  {
    ZipElements(a, b);
    ZipElements(b, a);
  }

  /** The examples of utilTest.ts: `zip([1, 2], [3, 4, 5])` and `zip([1, 2, 5, 6], [3, 4, 5])`. */
  lemma ZipExamples()
    ensures Zip([1, 2], [3, 4]) == [(1, 3), (2, 4)]
    ensures Zip([1, 2], [3, 4, 5]) == [(1, 3), (2, 4)]
    ensures Zip([1, 2, 5, 6], [3, 4, 5]) == [(1, 3), (2, 4), (5, 5)]
  {
    ZipElements([1, 2], [3, 4]);
    ZipElements([1, 2], [3, 4, 5]);
    ZipElements([1, 2, 5, 6], [3, 4, 5]);
  }
}
