/** Quantifiers and aggregators (src/seq.ts:81-86): bounded `take`, `first`,
    and the collapsing queries `length`, `values`, `elements` and `maybe`,
    each of which yields exactly one pair at the context node. */
module Aggregates {
  import opened Options
  import opened Lists
  import opened Queries
  import opened Nodes

  /** The end index `Array.prototype.slice(0, end)` stops at on a list of
      length `len`: a negative `end` counts back from the end of the list,
      and the result is clamped to `0 .. len`. */
  function SliceEnd(len: nat, end: int): (e: nat)
    ensures e <= len
  {
    if end < 0 then
      (if len + end < 0 then 0 else len + end)
    else if end > len then len
    else end
  }

  /** `take(k)(q)`: `q(node).slice(0, k)`. */
  function Take<N, A>(k: int, q: Query<N, A>): Query<N, A>
  {
    n => q(n)[..SliceEnd(|q(n)|, k)]
  }

  /** `first(q)`: `take(1)(q)`. */
  function First<N, A>(q: Query<N, A>): Query<N, A>
  {
    Take(1, q)
  }

  /** `length(q)`: one pair at the context node, valued with the number of pairs of `q`. */
  function Length<N, A>(q: Query<N, A>): Query<N, nat>
  {
    n => [(n, |q(n)|)]
  }

  /** The value of a pair. */
  function Value<N, A>(): ((N, A)) -> A
  {
    (p: (N, A)) => p.1
  }

  /** The node of a pair. */
  function NodeOf<N, A>(): ((N, A)) -> N
  {
    (p: (N, A)) => p.0
  }

  /** The values of `q` at `n`, in order, nodes dropped. */
  function ValueList<N, A>(q: Query<N, A>, n: N): seq<A>
  {
    MapList(q(n), Value())
  }

  /** The nodes of `q` at `n`, in order, values dropped. */
  function NodeList<N, A>(q: Query<N, A>, n: N): seq<N>
  {
    MapList(q(n), NodeOf())
  }

  /** `values(q)`: one pair at the context node, valued with the list of `q`'s values. */
  function Values<N, A>(q: Query<N, A>): Query<N, seq<A>>
  {
    n => [(n, ValueList(q, n))]
  }

  /** `elements(q)`: one pair at the context node, valued with the list of `q`'s nodes. */
  function Elements<N, A>(q: Query<N, A>): Query<N, seq<N>>
  {
    n => [(n, NodeList(q, n))]
  }

  /** `maybe(q)`: `map(values(q), vs => maybe.fromList(vs))`. */
  function Maybe<N, A>(q: Query<N, A>): Query<N, Option<A>>
  {
    Map(Values(q), Head)
  }

  // ---------------------------------------------------------------------
  // take and first

  /** `take(k)` yields a prefix of `q`'s pairs: the first `k` of them when `k`
      is not negative (all of them when there are fewer), and all but the last
      `-k` when it is. */
  lemma TakePrefix<N, A>(k: int, q: Query<N, A>, n: N)
    ensures Take(k, q)(n) <= q(n)
    ensures k >= 0 ==> |Take(k, q)(n)| == if k <= |q(n)| then k else |q(n)|
    ensures k < 0 ==> |Take(k, q)(n)| == if |q(n)| + k >= 0 then |q(n)| + k else 0
  {
  }

  /** `take(0)` is `empty()`. */
  lemma TakeZero<N, A>(q: Query<N, A>, n: N)
    ensures Take(0, q)(n) == Empty<N, A>()(n)
  {
  }

  /** Two non-negative `take`s in a row keep the smaller bound. */
  lemma TakeTake<N, A>(j: nat, k: nat, q: Query<N, A>, n: N)
    ensures Take(j, Take(k, q))(n) == Take(if j <= k then j else k, q)(n)
  {
  }

  /** `first` yields at most one pair: none exactly when `q` yields none,
      otherwise `q`'s first pair. */
  lemma FirstSpec<N, A>(q: Query<N, A>, n: N)
    ensures |First(q)(n)| <= 1
    ensures First(q)(n) == [] <==> q(n) == []
    ensures q(n) != [] ==> First(q)(n) == [q(n)[0]]
  {
  }

  /** The first pair of a union comes from the left side unless that side is empty. */
  lemma FirstOfAppend<N, A>(a: Query<N, A>, b: Query<N, A>, n: N)
    ensures First(Append(a, b))(n) == if a(n) == [] then First(b)(n) else First(a)(n)
  {
    if a(n) != [] {
      assert (a(n) + b(n))[0] == a(n)[0];
    } else {
      assert a(n) + b(n) == b(n);
    }
  }

  // ---------------------------------------------------------------------
  // Aggregators

  /** `length` yields one pair at the node, valued with the number of pairs of `q`,
      which is also the number of its values and of its nodes. */
  lemma LengthSpec<N, A>(q: Query<N, A>, n: N)
    ensures OneAt(Length(q), n)
    ensures Length(q)(n)[0].1 == |q(n)| == |Values(q)(n)[0].1| == |Elements(q)(n)[0].1|
  {
  }

  /** The length of a union is the sum of the lengths. */
  lemma LengthAppend<N, A>(a: Query<N, A>, b: Query<N, A>, n: N)
    ensures Length(Append(a, b))(n)[0].1 == Length(a)(n)[0].1 + Length(b)(n)[0].1
  {
  }

  /** `values` yields one pair at the node, valued with `q`'s values in order. */
  lemma ValuesSpec<N, A>(q: Query<N, A>, n: N)
    ensures OneAt(Values(q), n)
    ensures |Values(q)(n)[0].1| == |q(n)|
    ensures forall i :: 0 <= i < |q(n)| ==> Values(q)(n)[0].1[i] == q(n)[i].1
  {
  }

  /** `elements` yields one pair at the node, valued with `q`'s nodes in order. */
  lemma ElementsSpec<N, A>(q: Query<N, A>, n: N)
    ensures OneAt(Elements(q), n)
    ensures |Elements(q)(n)[0].1| == |q(n)|
    ensures forall i :: 0 <= i < |q(n)| ==> Elements(q)(n)[0].1[i] == q(n)[i].0
  {
  }

  /** `elements` and `values` together lose nothing: zipping them rebuilds `q`'s pairs. */
  lemma ElementsValuesZip<N, A>(q: Query<N, A>, n: N)
    ensures Zip(Elements(q)(n)[0].1, Values(q)(n)[0].1) == q(n)
  {
    var z := Zip(NodeList(q, n), ValueList(q, n));
    assert |z| == |q(n)|;
    forall i | 0 <= i < |q(n)|
      ensures z[i] == q(n)[i]
    {
      assert z[i] == (q(n)[i].0, q(n)[i].1);
    }
  }

  /** The values of a union are the left values followed by the right values. */
  lemma ValuesAppend<N, A>(a: Query<N, A>, b: Query<N, A>, n: N)
    ensures Values(Append(a, b))(n)[0].1 == Values(a)(n)[0].1 + Values(b)(n)[0].1
  {
    MapListConcat(a(n), b(n), Value<N, A>());
  }

  /** `maybe` yields one pair at the node; its value is absent exactly when `q`
      yields nothing, and is otherwise the first of `q`'s values. */
  lemma MaybeSpec<N, A>(q: Query<N, A>, n: N)
    ensures OneAt(Maybe(q), n)
    ensures Maybe(q)(n)[0].1.None? <==> q(n) == []
    ensures q(n) != [] ==> Maybe(q)(n)[0].1 == Some(Values(q)(n)[0].1[0]) == Some(q(n)[0].1)
  {
    assert Maybe(q)(n)[0] == OnValue(Head)(Values(q)(n)[0]) == (n, Head(ValueList(q, n)));
  }

  /** `maybe(closest(css))` yields, at the context node, exactly what the
      DOM's `closest` returns: the nearest match, or absent. */
  lemma MaybeClosest<N>(dom: Dom<N>, css: string, n: N)
    ensures Maybe(Closest(dom, css))(n) == [(n, dom.closest(n, css))]
  {
    ClosestSpec(dom, css, n);
    MaybeSpec(Closest(dom, css), n);
  }

  /** First wins: `maybe(q)` only depends on `first(q)`. */
  lemma MaybeFirst<N, A>(q: Query<N, A>, n: N)
    ensures Maybe(q)(n) == Maybe(First(q))(n)
  {
    MaybeSpec(q, n);
    MaybeSpec(First(q), n);
  }
}
