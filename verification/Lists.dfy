/** The array operations the query combinators are built from: JavaScript's
    `flatMap`, `map` and `filter` on finite sequences, each defined by
    recursion on the list and characterised by lemmas. */
module Lists {

  /** `s.flatMap(f)`: the concatenation, in order, of `f` applied to every element. */
  function FlatMap<A, B>(s: seq<A>, f: A -> seq<B>): seq<B>
  {
    if s == [] then [] else f(s[0]) + FlatMap(s[1..], f)
  }

  /** `s.map(f)`: position `i` of the result is `f(s[i])`. */
  function MapList<A, B>(s: seq<A>, f: A -> B): (r: seq<B>)
    ensures |r| == |s|
    ensures forall i :: 0 <= i < |s| ==> r[i] == f(s[i])
  {
    if s == [] then [] else [f(s[0])] + MapList(s[1..], f)
  }

  /** `s.filter(p)`: the elements of `s` that satisfy `p`, in their original order. */
  function FilterList<A>(s: seq<A>, p: A -> bool): (r: seq<A>)
    ensures |r| <= |s|
    ensures forall i :: 0 <= i < |r| ==> r[i] in s && p(r[i])
    ensures forall i :: 0 <= i < |s| && p(s[i]) ==> s[i] in r
  {
    if s == [] then [] else (if p(s[0]) then [s[0]] else []) + FilterList(s[1..], p)
  }

  /** `filter` keeps every element that satisfies `p` exactly as often as it
      occurs in the input, and no other element. */
  lemma {:induction false} FilterListCount<A>(s: seq<A>, p: A -> bool)
    ensures forall x :: multiset(FilterList(s, p))[x] == if p(x) then multiset(s)[x] else 0
  {
    if s != [] {
      FilterListCount(s[1..], p);
      assert s == [s[0]] + s[1..];
      assert multiset(s) == multiset([s[0]]) + multiset(s[1..]);
    }
  }

  /** Pairs up two lists position by position, stopping at the shorter one. */
  function Zip<A, B>(a: seq<A>, b: seq<B>): (r: seq<(A, B)>)
    ensures |r| == if |a| <= |b| then |a| else |b|
    ensures forall i :: 0 <= i < |r| ==> r[i] == (a[i], b[i])
  {
    if a == [] || b == [] then [] else [(a[0], b[0])] + Zip(a[1..], b[1..])
  }

  /** `flatMap` over a single element is the function applied to it. */
  lemma FlatMapSingle<A, B>(x: A, f: A -> seq<B>)
    ensures FlatMap([x], f) == f(x)
  {
    assert [x][1..] == [];
  }

  /** `flatMap` distributes over concatenation. */
  lemma {:induction false} FlatMapConcat<A, B>(a: seq<A>, b: seq<A>, f: A -> seq<B>)
    ensures FlatMap(a + b, f) == FlatMap(a, f) + FlatMap(b, f)
  {
    if a == [] {
      assert a + b == b;
    } else {
      assert (a + b)[0] == a[0];
      assert (a + b)[1..] == a[1..] + b;
      FlatMapConcat(a[1..], b, f);
    }
  }

  /** A `flatMap` whose function always yields one element is a `map`. */
  lemma {:induction false} FlatMapSingletons<A, B>(s: seq<A>, f: A -> seq<B>, g: A -> B)
    requires forall x :: f(x) == [g(x)]
    ensures FlatMap(s, f) == MapList(s, g)
  {
    if s != [] {
      FlatMapSingletons(s[1..], f, g);
    }
  }

  /** A `flatMap` whose function always yields nothing yields nothing. */
  lemma {:induction false} FlatMapNothing<A, B>(s: seq<A>, f: A -> seq<B>)
    requires forall x :: f(x) == []
    ensures FlatMap(s, f) == []
  {
    if s != [] {
      FlatMapNothing(s[1..], f);
    }
  }

  /** Two `flatMap`s in a row are one `flatMap` with the composed function `h`. */
  lemma {:induction false} FlatMapFlatMap<A, B, C>(s: seq<A>, f: A -> seq<B>, g: B -> seq<C>, h: A -> seq<C>)
    requires forall x :: h(x) == FlatMap(f(x), g)
    ensures FlatMap(FlatMap(s, f), g) == FlatMap(s, h)
  {
    if s != [] {
      FlatMapConcat(f(s[0]), FlatMap(s[1..], f), g);
      FlatMapFlatMap(s[1..], f, g, h);
    }
  }

  /** `map` distributes over concatenation. */
  lemma {:induction false} MapListConcat<A, B>(a: seq<A>, b: seq<A>, f: A -> B)
    ensures MapList(a + b, f) == MapList(a, f) + MapList(b, f)
  {
    var l, r := MapList(a + b, f), MapList(a, f) + MapList(b, f);
    assert |l| == |r|;
    forall i | 0 <= i < |l|
      ensures l[i] == r[i]
    {
      if i < |a| {
        assert (a + b)[i] == a[i];
      } else {
        assert (a + b)[i] == b[i - |a|];
      }
    }
  }

  /** `filter` distributes over concatenation: it keeps the order of what it keeps. */
  lemma {:induction false} FilterConcat<A>(a: seq<A>, b: seq<A>, p: A -> bool)
    ensures FilterList(a + b, p) == FilterList(a, p) + FilterList(b, p)
  {
    if a == [] {
      assert a + b == b;
    } else {
      assert (a + b)[0] == a[0];
      assert (a + b)[1..] == a[1..] + b;
      FilterConcat(a[1..], b, p);
    }
  }

  /** `filter` is the `flatMap` that keeps an element as a singleton or drops it. */
  lemma {:induction false} FilterAsFlatMap<A>(s: seq<A>, p: A -> bool, f: A -> seq<A>)
    requires forall x :: f(x) == if p(x) then [x] else []
    ensures FilterList(s, p) == FlatMap(s, f)
  {
    if s != [] {
      FilterAsFlatMap(s[1..], p, f);
    }
  }
}
