/** Structural destructuring (src/seq.ts:88-110): several named queries,
    each re-anchored at the context node, combined into one record-valued
    query. A struct of queries is the object's own entries in
    `Object.entries` order; a record is a map from field name to value. */
module Destructuring {
  import opened Options
  import opened Lists
  import opened Queries
  import opened Nodes
  import opened Aggregates

  /** A struct of queries: its (field name, query) entries, in order. */
  type Struct<!N, A> = seq<(string, Query<N, A>)>

  /** The library's monadic `sequence`, by the standard definition: run the
      first query, then the rest at the node it produced, and collect the
      values of every combination in order. */
  function Sequence<N, A>(qs: seq<Query<N, A>>): Query<N, seq<A>>
    decreases |qs|
  {
    if qs == [] then Unit([])
    else Bind(qs[0], (a: A) => Map(Sequence(qs[1..]), (rest: seq<A>) => [a] + rest))
  }

  /** A field's query re-anchored at `node`: `bind(set(node), _ => values(q))`. */
  function Anchored<N, A>(node: N): ((string, Query<N, A>)) -> Query<N, seq<A>>
  {
    (e: (string, Query<N, A>)) => Bind(Set(node), (_: N) => Values(e.1))
  }

  /** The field names of a struct, in order. */
  function Keys<N, A>(fields: Struct<N, A>): seq<string>
  {
    MapList(fields, (e: (string, Query<N, A>)) => e.0)
  }

  /** `Object.fromEntries`: a later entry for a key overwrites an earlier one. */
  function FromEntries<V>(es: seq<(string, V)>): map<string, V>
    decreases |es|
  {
    if es == [] then map[]
    else
      var k := |es| - 1;
      FromEntries(es[..k])[es[k].0 := es[k].1]
  }

  /** The query that ignores its context and yields the one pair (node, v). */
  function PairAt<N, T>(node: N, v: T): Query<N, T>
  {
    _ => [(node, v)]
  }

  /** `destructAll(t)`: at the context node, sequence the re-anchored value
      lists of all fields and build the record of field name to value list.
      Names and lists are paired by position (a missing list would be
      `undefined` in the source; it cannot occur, see `DestructAllIsDirect`). */
  function DestructAll<N, A>(fields: Struct<N, A>): Query<N, map<string, seq<A>>>
  {
    Bind(Get(), (node: N) =>
      Bind(Sequence(MapList(fields, Anchored(node))),
           (vs: seq<seq<A>>) => PairAt(node, FromEntries(Zip(Keys(fields), vs)))))
  }

  /** `object.fmap(array.first)`: every list collapsed to its head or absent. */
  function FirstOfEach<A>(rec: map<string, seq<A>>): map<string, Option<A>>
  {
    map k | k in rec :: Head(rec[k])
  }

  /** `destruct(t)`: `destructAll(t)` with each list collapsed to its first value. */
  function Destruct<N, A>(fields: Struct<N, A>): Query<N, map<string, Option<A>>>
  {
    Map(DestructAll(fields), FirstOfEach)
  }

  // ---------------------------------------------------------------------
  // Specification

  /** Entry `i` is the last one with its key, so its value is the one kept. */
  ghost predicate LastKey<V>(es: seq<(string, V)>, i: int)
  {
    0 <= i < |es| && forall j :: i < j < |es| ==> es[j].0 != es[i].0
  }

  /** No key occurs twice, as in the entries of an object. */
  ghost predicate DistinctKeys<V>(es: seq<(string, V)>)
  {
    forall i, j :: 0 <= i < j < |es| ==> es[i].0 != es[j].0
  }

  /** The field names of a struct, as a set. */
  ghost function KeySet<V>(es: seq<(string, V)>): set<string>
  {
    set i | 0 <= i < |es| :: es[i].0
  }

  /** Each field's value list, computed directly at `n`. */
  function FieldValues<N, A>(n: N): ((string, Query<N, A>)) -> seq<A>
  {
    (e: (string, Query<N, A>)) => ValueList(e.1, n)
  }

  /** The record read directly: each field name with its query's value list at `n`. */
  function DirectRecord<N, A>(fields: Struct<N, A>, n: N): map<string, seq<A>>
  {
    FromEntries(Zip(Keys(fields), MapList(fields, FieldValues(n))))
  }

  /** Dropping the last entry drops its key and nothing else from the key set. */
  lemma KeySetSnoc<V>(es: seq<(string, V)>)
    requires es != []
    ensures KeySet(es) == KeySet(es[..|es| - 1]) + {es[|es| - 1].0}
  {
    var k := |es| - 1;
    var init := es[..k];
    forall key | key in KeySet(es)
      ensures key in KeySet(init) + {es[k].0}
    {
      var i :| 0 <= i < |es| && es[i].0 == key;
      if i < k {
        assert init[i] == es[i];
      }
    }
    forall key | key in KeySet(init)
      ensures key in KeySet(es)
    {
      var i :| 0 <= i < |init| && init[i].0 == key;
      assert es[i] == init[i];
    }
  }

  /** `Object.fromEntries` holds exactly the entries' keys. */
  lemma {:induction false} FromEntriesKeys<V>(es: seq<(string, V)>)
    ensures FromEntries(es).Keys == KeySet(es)
  {
    if es != [] {
      FromEntriesKeys(es[..|es| - 1]);
      KeySetSnoc(es);
    }
  }

  /** `Object.fromEntries` maps each key to the value of its last entry. */
  lemma {:induction false} FromEntriesLast<V>(es: seq<(string, V)>, i: int)
    requires LastKey(es, i)
    ensures es[i].0 in FromEntries(es) && FromEntries(es)[es[i].0] == es[i].1
  {
    var k := |es| - 1;
    if i < k {
      var init := es[..k];
      assert init[i] == es[i];
      assert LastKey(init, i) by {
        forall j | i < j < |init|
          ensures init[j].0 != init[i].0
        {
          assert init[j] == es[j];
        }
      }
      FromEntriesLast(init, i);
    }
  }

  /** A re-anchored field yields, at any context, the one pair (node, its value
      list at node): it cannot see where any other field left off. */
  lemma AnchoredSpec<N, A>(node: N, e: (string, Query<N, A>), m: N)
    ensures Anchored(node)(e)(m) == [(node, ValueList(e.1, node))]
  {
    SetAnchors(node, Values(e.1), m, m);
  }

  /** Sequencing queries that each yield exactly one pair at `node`, whatever
      their context, yields one pair at `node` holding all their values in order. */
  lemma {:induction false} SequenceOfSingles<N, A>(qs: seq<Query<N, A>>, node: N, vals: seq<A>)
    requires |qs| == |vals|
    requires forall i, m :: 0 <= i < |qs| ==> qs[i](m) == [(node, vals[i])]
    ensures Sequence(qs)(node) == [(node, vals)]
  {
    if qs != [] {
      var cons := (rest: seq<A>) => [vals[0]] + rest;
      var f := (a: A) => Map(Sequence(qs[1..]), (rest: seq<A>) => [a] + rest);
      forall i, m | 0 <= i < |qs[1..]|
        ensures qs[1..][i](m) == [(node, vals[1..][i])]
      {
        assert qs[1..][i] == qs[i + 1];
      }
      SequenceOfSingles(qs[1..], node, vals[1..]);
      calc {
        Sequence(qs)(node);
        FlatMap(qs[0](node), Step(f));
        { FlatMapSingle((node, vals[0]), Step(f)); }
        f(vals[0])(node);
        MapList(Sequence(qs[1..])(node), OnValue(cons));
        [(node, [vals[0]] + vals[1..])];
        { assert [vals[0]] + vals[1..] == vals; }
        [(node, vals)];
      }
    }
  }

  /** `destructAll` agrees with the direct reading: one pair at the context
      node, whose record maps each field name to that field's value list, all
      computed at the same node. */
  lemma DestructAllIsDirect<N, A>(fields: Struct<N, A>, n: N)
    ensures DestructAll(fields)(n) == [(n, DirectRecord(fields, n))]
  {
    var qs := MapList(fields, Anchored(n));
    var vals := MapList(fields, FieldValues(n));
    forall i, m | 0 <= i < |qs|
      ensures qs[i](m) == [(n, vals[i])]
    {
      AnchoredSpec(n, fields[i], m);
    }
    SequenceOfSingles(qs, n, vals);
    var build := (vs: seq<seq<A>>) => PairAt(n, FromEntries(Zip(Keys(fields), vs)));
    var g := (node: N) =>
      Bind(Sequence(MapList(fields, Anchored(node))),
           (vs: seq<seq<A>>) => PairAt(node, FromEntries(Zip(Keys(fields), vs))));
    calc {
      DestructAll(fields)(n);
      { GetSpec(g, n); }
      g(n)(n);
      FlatMap(Sequence(qs)(n), Step(build));
      { FlatMapSingle((n, vals), Step(build)); }
      build(vals)(n);
    }
  }

  /** The direct record has exactly the struct's field names, each mapped to
      its query's value list at `n` (the last entry wins for a repeated name). */
  lemma DirectRecordSpec<N, A>(fields: Struct<N, A>, n: N)
    ensures DirectRecord(fields, n).Keys == KeySet(fields)
    ensures forall i :: LastKey(fields, i) ==> DirectRecord(fields, n)[fields[i].0] == ValueList(fields[i].1, n)
  {
    var es := Zip(Keys(fields), MapList(fields, FieldValues(n)));
    assert |es| == |fields|;
    forall i | 0 <= i < |fields|
      ensures es[i] == (fields[i].0, ValueList(fields[i].1, n))
    {
    }
    FromEntriesKeys(es);
    assert KeySet(es) == KeySet(fields) by {
      forall key | key in KeySet(fields)
        ensures key in KeySet(es)
      {
        var i :| 0 <= i < |fields| && fields[i].0 == key;
        assert es[i].0 == key;
      }
    }
    forall i | LastKey(fields, i)
      ensures DirectRecord(fields, n)[fields[i].0] == ValueList(fields[i].1, n)
    {
      assert LastKey(es, i);
      FromEntriesLast(es, i);
    }
  }

  /** `destructAll` yields one pair at the context node. Its record has exactly
      the struct's field names, and maps each name to the values, in order, of
      that field's query run at the context node (the last entry wins for a
      repeated name, as in `Object.fromEntries`). */
  lemma DestructAllSpec<N, A>(fields: Struct<N, A>, n: N)
    ensures OneAt(DestructAll(fields), n)
    ensures DestructAll(fields)(n)[0].1.Keys == KeySet(fields)
    ensures forall i :: LastKey(fields, i) ==>
      DestructAll(fields)(n)[0].1[fields[i].0] == ValueList(fields[i].1, n) == Values(fields[i].1)(n)[0].1
  {
    DestructAllIsDirect(fields, n);
    DirectRecordSpec(fields, n);
  }

  /** Two structs with the same entries have the same field names. */
  lemma SameEntriesSameKeys<V>(f1: seq<(string, V)>, f2: seq<(string, V)>)
    requires forall i :: 0 <= i < |f1| ==> f1[i] in f2
    ensures KeySet(f1) <= KeySet(f2)
  {
    forall key | key in KeySet(f1)
      ensures key in KeySet(f2)
    {
      var i :| 0 <= i < |f1| && f1[i].0 == key;
      var j :| 0 <= j < |f2| && f2[j] == f1[i];
    }
  }

  /** Two records that each hold, for every field of its struct, that field's
      value list at `n` are equal when the structs have the same entries. */
  lemma RecordsAgree<N, A>(f1: Struct<N, A>, f2: Struct<N, A>, n: N, r1: map<string, seq<A>>, r2: map<string, seq<A>>)
    requires DistinctKeys(f1) && DistinctKeys(f2)
    requires forall i :: 0 <= i < |f1| ==> f1[i] in f2
    requires forall j :: 0 <= j < |f2| ==> f2[j] in f1
    requires r1.Keys == KeySet(f1) && r2.Keys == KeySet(f2)
    requires forall i :: LastKey(f1, i) ==> r1[f1[i].0] == ValueList(f1[i].1, n)
    requires forall j :: LastKey(f2, j) ==> r2[f2[j].0] == ValueList(f2[j].1, n)
    ensures r1 == r2
  {
    SameEntriesSameKeys(f1, f2);
    SameEntriesSameKeys(f2, f1);
    forall key | key in r1
      ensures r1[key] == r2[key]
    {
      var i :| 0 <= i < |f1| && f1[i].0 == key;
      var j :| 0 <= j < |f2| && f2[j] == f1[i];
      assert LastKey(f1, i) && LastKey(f2, j);
    }
  }

  /** Field order does not matter: two structs with distinct field names and
      the same entries yield the same result. */
  lemma DestructAllOrderFree<N, A>(f1: Struct<N, A>, f2: Struct<N, A>, n: N)
    requires DistinctKeys(f1) && DistinctKeys(f2)
    requires forall i :: 0 <= i < |f1| ==> f1[i] in f2
    requires forall j :: 0 <= j < |f2| ==> f2[j] in f1
    ensures DestructAll(f1)(n) == DestructAll(f2)(n)
  {
    DestructAllIsDirect(f1, n);
    DestructAllIsDirect(f2, n);
    DirectRecordSpec(f1, n);
    DirectRecordSpec(f2, n);
    RecordsAgree(f1, f2, n, DirectRecord(f1, n), DirectRecord(f2, n));
  }

  /** `destruct` yields one pair at the context node; its record has the same
      field names as `destructAll`'s, and each field holds the first value of
      its query at the context node, or absent when there is none: the value
      `maybe` gives. */
  lemma DestructSpec<N, A>(fields: Struct<N, A>, n: N)
    ensures OneAt(Destruct(fields), n)
    ensures Destruct(fields)(n)[0].1.Keys == KeySet(fields)
    ensures forall i :: LastKey(fields, i) ==>
      Destruct(fields)(n)[0].1[fields[i].0] == Head(ValueList(fields[i].1, n)) == Maybe(fields[i].1)(n)[0].1
  {
    DestructAllSpec(fields, n);
    var r := DestructAll(fields)(n)[0].1;
    assert Destruct(fields)(n) == [(n, FirstOfEach(r))];
    forall i | LastKey(fields, i)
      ensures Head(ValueList(fields[i].1, n)) == Maybe(fields[i].1)(n)[0].1
    {
      MaybeSpec(fields[i].1, n);
    }
  }
}
