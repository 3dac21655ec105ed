/**
 * The JavaScript array built-ins the extractor's core relies on: `map`,
 * `filter` and `slice(0, n)`.
 */
module Arrays {

  /** `xs.map(f)` */
  function Map<A, B>(xs: seq<A>, f: A -> B): (r: seq<B>)
    ensures |r| == |xs|
    ensures forall k :: 0 <= k < |xs| ==> r[k] == f(xs[k])
  {
    if xs == [] then [] else [f(xs[0])] + Map(xs[1..], f)
  }

  /** Mapping distributes over concatenation. */
  lemma {:induction false} MapAppend<A, B>(a: seq<A>, b: seq<A>, f: A -> B)
    ensures Map(a + b, f) == Map(a, f) + Map(b, f)
  {
    if a == [] {
      assert a + b == b;
    } else {
      assert (a + b)[1..] == a[1..] + b;
      MapAppend(a[1..], b, f);
    }
  }

  /** `xs.filter(p)`: the elements that satisfy `p`, in their order. */
  function Filter<T>(xs: seq<T>, p: T -> bool): (r: seq<T>)
    ensures |r| <= |xs|
    ensures forall k :: 0 <= k < |r| ==> p(r[k]) && r[k] in xs
    ensures forall k :: 0 <= k < |xs| && p(xs[k]) ==> xs[k] in r
  {
    if xs == [] then []
    else
      var rest := Filter(xs[1..], p);
      assert forall k :: 1 <= k < |xs| ==> xs[k] == xs[1..][k - 1];
      (if p(xs[0]) then [xs[0]] else []) + rest
  }

  /** Filtering distributes over concatenation: nothing is dropped that
      passes, and the order of what passes is kept. */
  lemma {:induction false} FilterAppend<T>(a: seq<T>, b: seq<T>, p: T -> bool)
    ensures Filter(a + b, p) == Filter(a, p) + Filter(b, p)
  {
    if a == [] {
      assert a + b == b;
    } else {
      assert (a + b)[1..] == a[1..] + b;
      FilterAppend(a[1..], b, p);
    }
  }

  /** A filter keeps everything exactly when every element passes. */
  lemma {:induction false} FilterAll<T>(xs: seq<T>, p: T -> bool)
    ensures Filter(xs, p) == xs <==> forall k :: 0 <= k < |xs| ==> p(xs[k])
  {
    if xs != [] {
      FilterAll(xs[1..], p);
      if !p(xs[0]) {
        assert |Filter(xs, p)| < |xs|;
      } else {
        assert forall k :: 1 <= k < |xs| ==> xs[k] == xs[1..][k - 1];
      }
    }
  }

  /** A filter keeps nothing exactly when no element passes. */
  lemma FilterNone<T>(xs: seq<T>, p: T -> bool)
    ensures Filter(xs, p) == [] <==> forall k :: 0 <= k < |xs| ==> !p(xs[k])
  {
    if Filter(xs, p) == [] {
      forall k | 0 <= k < |xs| ensures !p(xs[k]) {
        assert xs[k] in xs;
      }
    }
  }

  /** `xs.slice(0, n)`: the first `n` elements, or all of them when there are
      fewer. */
  function Prefix<T>(xs: seq<T>, n: nat): (r: seq<T>)
    ensures |r| == (if |xs| <= n then |xs| else n)
    ensures r == xs[..|r|]
  {
    if |xs| <= n then xs else xs[..n]
  }
}
