/** The core algebra of `src/seq.ts`: the query type and the six primitive
    combinators (unit, bind, map, empty, append, filter), with the monad,
    monoid, zero and distribution laws they obey. Every law is stated
    pointwise: as an equality of the result lists at an arbitrary node. */
module Queries {
  import opened Lists

  /** A query (the source's `Seq<T>`): run at a context node, it yields an
      ordered list of (node, value) pairs. The node of each pair is where the
      result lives, and the context of whatever is chained after it. */
  type Query<!N, T> = N -> seq<(N, T)>

  /** `unit(x)`: the single pair (context, x). */
  function Unit<N, A>(x: A): Query<N, A>
  {
    n => [(n, x)]
  }

  /** The continuation of `bind`: runs `f` of the pair's value at the pair's node. */
  function Step<N, A, B>(f: A -> Query<N, B>): ((N, A)) -> seq<(N, B)>
  {
    (p: (N, A)) => f(p.1)(p.0)
  }

  /** `bind(q, f)`: for each pair (m, a) of `q`, in order, the pairs of `f(a)` run at `m`. */
  function Bind<N, A, B>(q: Query<N, A>, f: A -> Query<N, B>): Query<N, B>
  {
    n => FlatMap(q(n), Step(f))
  }

  /** Applies `f` to the value of a pair and keeps its node. */
  function OnValue<N, A, B>(f: A -> B): ((N, A)) -> (N, B)
  {
    (p: (N, A)) => (p.0, f(p.1))
  }

  /** `map(q, f)`: the pairs of `q` with `f` applied to their values. */
  function Map<N, A, B>(q: Query<N, A>, f: A -> B): Query<N, B>
  {
    n => MapList(q(n), OnValue(f))
  }

  /** `empty()`: no pairs, at any node. */
  function Empty<N, A>(): Query<N, A>
  {
    _ => []
  }

  /** `append(left, right)`: both run at the same node, left's pairs first. */
  function Append<N, A>(left: Query<N, A>, right: Query<N, A>): Query<N, A>
  {
    n => left(n) + right(n)
  }

  /** Tests `p` on the value of a pair. */
  function ValueSatisfies<N, A>(p: A -> bool): ((N, A)) -> bool
  {
    (pr: (N, A)) => p(pr.1)
  }

  /** `filter(p)(q)`: the pairs of `q` whose value satisfies `p`. */
  function Filter<N, A>(p: A -> bool, q: Query<N, A>): Query<N, A>
  {
    n => FilterList(q(n), ValueSatisfies(p))
  }

  // ---------------------------------------------------------------------
  // Monad laws

  /** Left identity: binding a unit runs the continuation at the same node. */
  lemma BindUnitLeft<N, A, B>(x: A, f: A -> Query<N, B>, n: N)
    ensures Bind(Unit(x), f)(n) == f(x)(n)
  {
    FlatMapSingle((n, x), Step(f));
  }

  /** Right identity: binding into `unit` changes nothing. */
  lemma BindUnitRight<N, A>(q: Query<N, A>, n: N)
    ensures Bind(q, (a: A) => Unit<N, A>(a))(n) == q(n)
  {
    var id := (p: (N, A)) => p;
    var u := Step((a: A) => Unit<N, A>(a));
    forall x: (N, A)
      ensures u(x) == [id(x)]
    {
      assert u(x) == Unit<N, A>(x.1)(x.0) == [(x.0, x.1)];
    }
    FlatMapSingletons(q(n), u, id);
  }

  /** Associativity: `bind(bind(q, f), g) == bind(q, a => bind(f(a), g))`. */
  lemma BindAssoc<N, A, B, C>(q: Query<N, A>, f: A -> Query<N, B>, g: B -> Query<N, C>, n: N)
    ensures Bind(Bind(q, f), g)(n) == Bind(q, (a: A) => Bind(f(a), g))(n)
  {
    var h := Step((a: A) => Bind(f(a), g));
    forall x: (N, A)
      ensures h(x) == FlatMap(Step(f)(x), Step(g))
    {
      calc {
        h(x);
        Bind(f(x.1), g)(x.0);
        FlatMap(f(x.1)(x.0), Step(g));
      }
    }
    FlatMapFlatMap(q(n), Step(f), Step(g), h);
  }

  // ---------------------------------------------------------------------
  // Monoid, zero and distribution laws

  /** `append` is associative and `empty` is its two-sided identity. */
  lemma AppendMonoid<N, A>(a: Query<N, A>, b: Query<N, A>, c: Query<N, A>, n: N)
    ensures Append(a, Append(b, c))(n) == Append(Append(a, b), c)(n)
    ensures Append(a, Empty())(n) == a(n) == Append(Empty(), a)(n)
  {
  }

  /** Left zero: binding the empty query yields nothing. */
  lemma BindEmptyLeft<N, A, B>(f: A -> Query<N, B>, n: N)
    ensures Bind(Empty(), f)(n) == []
  {
  }

  /** Right zero: binding into a continuation that always fails yields nothing. */
  lemma BindEmptyRight<N, A, B>(q: Query<N, A>, n: N)
    ensures Bind(q, (_: A) => Empty<N, B>())(n) == []
  {
    var z := Step((_: A) => Empty<N, B>());
    forall x: (N, A)
      ensures z(x) == []
    {
    }
    FlatMapNothing(q(n), z);
  }

  /** Left distribution: `bind(append(a, b), f) == append(bind(a, f), bind(b, f))`. */
  lemma BindAppend<N, A, B>(a: Query<N, A>, b: Query<N, A>, f: A -> Query<N, B>, n: N)
    ensures Bind(Append(a, b), f)(n) == Append(Bind(a, f), Bind(b, f))(n)
  {
    FlatMapConcat(a(n), b(n), Step(f));
  }

  // ---------------------------------------------------------------------
  // map and filter

  /** `map` keeps the length and every node, and only changes each value `v` to `f(v)`. */
  lemma MapShape<N, A, B>(q: Query<N, A>, f: A -> B, n: N)
    ensures |Map(q, f)(n)| == |q(n)|
    ensures forall i :: 0 <= i < |q(n)| ==> Map(q, f)(n)[i] == (q(n)[i].0, f(q(n)[i].1))
  {
  }

  /** `map` agrees with its monadic definition `bind(q, a => unit(f(a)))`. */
  lemma MapIsBindUnit<N, A, B>(q: Query<N, A>, f: A -> B, n: N)
    ensures Map(q, f)(n) == Bind(q, (a: A) => Unit<N, B>(f(a)))(n)
  {
    var u := Step((a: A) => Unit<N, B>(f(a)));
    forall x: (N, A)
      ensures u(x) == [OnValue(f)(x)]
    {
      assert u(x) == Unit<N, B>(f(x.1))(x.0) == [(x.0, f(x.1))];
    }
    FlatMapSingletons(q(n), u, OnValue(f));
  }

  /** Functor law: mapping twice is mapping once with the composition. */
  lemma MapMap<N, A, B, C>(q: Query<N, A>, f: A -> B, g: B -> C, n: N)
    ensures Map(Map(q, f), g)(n) == Map(q, (a: A) => g(f(a)))(n)
  {
  }

  /** `filter` keeps the pairs whose value satisfies `p`, each as often as it
      occurs in `q`, and drops every other pair; nodes are unchanged. */
  lemma FilterSpec<N, A>(p: A -> bool, q: Query<N, A>, n: N)
    ensures |Filter(p, q)(n)| <= |q(n)|
    ensures forall i :: 0 <= i < |Filter(p, q)(n)| ==> Filter(p, q)(n)[i] in q(n) && p(Filter(p, q)(n)[i].1)
    ensures forall i :: 0 <= i < |q(n)| && p(q(n)[i].1) ==> q(n)[i] in Filter(p, q)(n)
    ensures forall pr :: multiset(Filter(p, q)(n))[pr] == if p(pr.1) then multiset(q(n))[pr] else 0
  {
    FilterListCount(q(n), ValueSatisfies(p));
  }

  /** `filter` preserves order: filtering a union filters each side in place. */
  lemma FilterAppend<N, A>(p: A -> bool, a: Query<N, A>, b: Query<N, A>, n: N)
    ensures Filter(p, Append(a, b))(n) == Append(Filter(p, a), Filter(p, b))(n)
  {
    FilterConcat(a(n), b(n), ValueSatisfies(p));
  }

  /** `filter` agrees with its monad-plus definition: bind into unit or empty. */
  lemma FilterIsBind<N, A>(p: A -> bool, q: Query<N, A>, n: N)
    ensures Filter(p, q)(n) == Bind(q, (a: A) => if p(a) then Unit<N, A>(a) else Empty<N, A>())(n)
  {
    var k := Step((a: A) => if p(a) then Unit<N, A>(a) else Empty<N, A>());
    forall x: (N, A)
      ensures k(x) == if ValueSatisfies(p)(x) then [x] else []
    {
      if p(x.1) {
        assert k(x) == Unit<N, A>(x.1)(x.0) == [(x.0, x.1)];
      } else {
        assert k(x) == Empty<N, A>()(x.0);
      }
    }
    FilterAsFlatMap(q(n), ValueSatisfies(p), k);
  }
}
